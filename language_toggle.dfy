/** The language switch (client/src/components/toggles/LanguageToggle.tsx): the display
    name of a language code, and the path the app navigates to after a change, whose
    first segment is replaced by the new code. Persisting the choice and telling i18n
    are effects outside this model. */
module LanguageToggle {

  const English: string := "English"
  const Russian: string := "\U{0420}\U{0443}\U{0441}\U{0441}\U{043A}\U{0438}\U{0439}"
  const Kazakh: string := "\U{049A}\U{0430}\U{0437}\U{0430}\U{049B}\U{0448}\U{0430}"

  /** The options of the select: (value, shown label). */
  const Options: seq<(string, string)> := [("en", English), ("ru", Russian), ("kk", Kazakh)]

  /** `getLanguageName`: the three known codes get their own name, any other code is shown
      as it is. */
  function LanguageName(code: string): (name: string)
    ensures code == "en" ==> name == English
    ensures code == "ru" ==> name == Russian
    ensures code == "kk" ==> name == Kazakh
    ensures code !in {"en", "ru", "kk"} ==> name == code
  {
    if code == "en" then English
    else if code == "ru" then Russian
    else if code == "kk" then Kazakh
    else code
  }

  /** The trigger shows, for every option's value, the label that option is listed with. */
  lemma OptionLabelsAgree()
    ensures forall j :: 0 <= j < |Options| ==> LanguageName(Options[j].0) == Options[j].1
  {
    assert Options[0].0 == "en" && Options[1].0 == "ru" && Options[2].0 == "kk";
  }

  /** A known code's name is never the code itself. */
  lemma KnownNamesDiffer(code: string)
    requires code in {"en", "ru", "kk"}
    ensures LanguageName(code) != code
  {
    assert English[0] != 'e';
    assert Russian[0] != 'r';
    assert Kazakh[0] != 'k';
  }

  /** The end of the first match of `^\/[^/]+` in `p`: after the leading '/', the run of
      characters up to the next '/' or the end; none when that run is empty. */
  function SegmentEnd(p: string, j: nat): (e: nat)
    requires 1 <= j <= |p|
    ensures j <= e <= |p|
    ensures forall k :: j <= k < e ==> p[k] != '/'
    ensures e == |p| || p[e] == '/'
    decreases |p| - j
  {
    if j == |p| || p[j] == '/' then j else SegmentEnd(p, j + 1)
  }

  /** `GetSubstitution` for a literal replacement string: `$$` is '$', `$&` the match,
      `` $` `` what precedes it (nothing, the match is anchored), `$'` what follows;
      any other '$' is literal. */
  function Substitute(template: string, matched: string, before: string, after: string): (r: string)
    ensures '$' !in template ==> r == template
  {
    if |template| == 0 then []
    else if template[0] == '$' && |template| >= 2 && template[1] in {'$', '&', '`', '\''} then
      var piece := match template[1]
        case '$' => "$"
        case '&' => matched
        case '`' => before
        case _ => after;
      piece + Substitute(template[2..], matched, before, after)
    else [template[0]] + Substitute(template[1..], matched, before, after)
  }

  /** `location.pathname.replace(/^\/[^/]+/, `/${value}`)`. */
  function NewPath(p: string, value: string): (r: string)
    ensures !(|p| >= 2 && p[0] == '/' && p[1] != '/') ==> r == p
    ensures |p| >= 2 && p[0] == '/' && p[1] != '/' ==>
      var e := SegmentEnd(p, 1); |r| >= |p| - e && r[|r| - (|p| - e)..] == p[e..]
  {
    if |p| >= 2 && p[0] == '/' && p[1] != '/' then
      var e := SegmentEnd(p, 1);
      Substitute("/" + value, p[..e], "", p[e..]) + p[e..]
    else p
  }

  /** A path that starts with a segment has it replaced by the code; the rest of the path
      is kept. A path without a leading segment is left as it is. */
  lemma NewPathReplacesFirstSegment(p: string, value: string)
    requires '$' !in value
    ensures |p| >= 2 && p[0] == '/' && p[1] != '/' ==>
      exists e :: 2 <= e <= |p| && '/' !in p[1..e] && NewPath(p, value) == "/" + value + p[e..]
        && (e == |p| || p[e] == '/')
    ensures !(|p| >= 2 && p[0] == '/' && p[1] != '/') ==> NewPath(p, value) == p
  {
    if |p| >= 2 && p[0] == '/' && p[1] != '/' {
      var e := SegmentEnd(p, 1);
      assert "$"[0] == '$';
      assert '$' !in "/" + value;
      assert e >= 2 by {
        assert SegmentEnd(p, 1) == SegmentEnd(p, 2);
      }
      assert '/' !in p[1..e] by {
        forall k | 0 <= k < |p[1..e]| ensures p[1..e][k] != '/' {
          assert p[1..e][k] == p[1 + k];
        }
      }
    }
  }
}
