/** The breadcrumb trail (client/src/components/notes/Breadcrumbs.tsx): the current path
    cut into segments, a fixed first crumb, then one crumb per segment after the first,
    each linking to the path up to it; the last one is marked as the current page. */
module Breadcrumbs {
  import opened Common

  /** `s.split('/')`: the pieces between slashes, empty ones included; never empty. */
  function Split(s: string): (r: seq<string>)
    ensures |r| >= 1
    ensures forall i :: 0 <= i < |r| ==> '/' !in r[i]
  {
    if s == [] then [[]]
    else
      var rest := Split(s[1..]);
      if s[0] == '/' then [[]] + rest
      else [[s[0]] + rest[0]] + rest[1..]
  }

  /** `parts.join(sep)`. */
  function Join(parts: seq<string>, sep: string): string {
    if |parts| == 0 then []
    else if |parts| == 1 then parts[0]
    else parts[0] + sep + Join(parts[1..], sep)
  }

  /** Joining the pieces back with '/' gives the string that was split. */
  lemma {:induction false} JoinSplit(s: string)
    ensures Join(Split(s), "/") == s
  {
    if s != [] {
      var rest := Split(s[1..]);
      JoinSplit(s[1..]);
      if s[0] == '/' {
        assert Split(s)[1..] == rest;
      } else {
        var parts := Split(s);
        assert parts[1..] == rest[1..];
        if |rest| > 1 {
          assert Join(rest, "/") == rest[0] + "/" + Join(rest[1..], "/");
        }
      }
    }
  }

  /** Splitting a piece without '/' followed by '/' and more. */
  lemma {:induction false} SplitCons(p: string, t: string)
    requires '/' !in p
    ensures Split(p + "/" + t) == [p] + Split(t)
  {
    if p == [] {
      assert p + "/" + t == "/" + t;
      assert ("/" + t)[1..] == t;
    } else {
      assert p[0] in p;
      assert forall c :: c in p[1..] ==> c in p;
      SplitCons(p[1..], t);
      var q := p + "/" + t;
      assert q[0] == p[0] && q[1..] == p[1..] + "/" + t;
      assert [q[0]] + p[1..] == p;
    }
  }

  /** Without '/' a string is a single piece. */
  lemma {:induction false} SplitPlain(p: string)
    requires '/' !in p
    ensures Split(p) == [p]
  {
    if p != [] {
      assert p[0] in p;
      assert forall c :: c in p[1..] ==> c in p;
      SplitPlain(p[1..]);
      assert [p[0]] + p[1..] == p;
    }
  }

  /** Splitting undoes joining when no piece holds '/'. */
  lemma {:induction false} SplitJoin(parts: seq<string>)
    requires |parts| >= 1
    requires forall i :: 0 <= i < |parts| ==> '/' !in parts[i]
    ensures Split(Join(parts, "/")) == parts
  {
    if |parts| == 1 {
      SplitPlain(parts[0]);
    } else {
      SplitJoin(parts[1..]);
      SplitCons(parts[0], Join(parts[1..], "/"));
    }
  }

  lemma {:induction false} JoinSnoc(parts: seq<string>, x: string, sep: string)
    requires |parts| >= 1
    ensures Join(parts + [x], sep) == Join(parts, sep) + sep + x
  {
    if |parts| > 1 {
      JoinSnoc(parts[1..], x, sep);
      assert (parts + [x])[1..] == parts[1..] + [x];
    }
  }

  predicate NonEmpty(p: string) { p != [] }

  /** `currentPath.split('/').filter(path => path)`: an empty piece is falsy. */
  function Segments(path: string): (segs: seq<string>)
    ensures forall i :: 0 <= i < |segs| ==> segs[i] != [] && '/' !in segs[i]
  {
    FilterMembers(Split(path), NonEmpty);
    Filter(Split(path), NonEmpty)
  }

  /** A path built from non-empty pieces without '/' yields those pieces again. */
  lemma SegmentsOfJoin(parts: seq<string>)
    requires |parts| >= 1
    requires forall i :: 0 <= i < |parts| ==> parts[i] != [] && '/' !in parts[i]
    ensures Segments(Join(parts, "/")) == parts
  {
    SplitJoin(parts);
    FilterKeepsAll(parts);
  }

  lemma {:induction false} FilterKeepsAll(parts: seq<string>)
    requires forall i :: 0 <= i < |parts| ==> parts[i] != []
    ensures Filter(parts, NonEmpty) == parts
  {
    if parts != [] {
      FilterKeepsAll(parts[1..]);
    }
  }

  datatype Crumb = Crumb(text: string, href: string, current: bool)

  const DashboardHref: string := "/dashboard"

  /** The first crumb, present on every page and never marked. */
  const DashboardCrumb: Crumb := Crumb("Dashboard", DashboardHref, false)

  /** `path.charAt(0).toUpperCase() + path.slice(1)`, with `toUpperCase` a parameter. */
  function Label(seg: string, upper: string -> string): string {
    if seg == [] then upper([]) else upper(seg[..1]) + seg[1..]
  }

  /** Only the first character goes through `toUpperCase`; the rest is kept as it is. */
  lemma LabelKeepsRest(seg: string, upper: string -> string)
    requires seg != []
    ensures var r := Label(seg, upper); |r| >= |seg| - 1 && r[|r| - (|seg| - 1)..] == seg[1..]
  {
  }

  /** The crumbs after the first: one per segment from the second on. */
  function Trail(segs: seq<string>, upper: string -> string): (rest: seq<Crumb>)
    ensures |rest| == (if |segs| == 0 then 0 else |segs| - 1)
    ensures forall i :: 0 <= i < |rest| ==> rest[i].text == Label(segs[i + 1], upper)
    ensures forall i :: 0 <= i < |rest| ==> (rest[i].current <==> i == |rest| - 1)
  {
    var n := if |segs| == 0 then 0 else |segs| - 1;
    seq(n, i requires 0 <= i < n =>
      Crumb(Label(segs[i + 1], upper), "/dashboard/" + Join(segs[1..i + 2], "/"), i == |segs| - 2))
  }

  /** Crumb i of the trail links to "/dashboard/" and segments 1 .. i+1 joined; the last
      one to all segments after the first. */
  lemma TrailHrefs(segs: seq<string>, upper: string -> string)
    ensures var rest := Trail(segs, upper);
      forall i :: 0 <= i < |rest| ==> rest[i].href == "/dashboard/" + Join(segs[1..i + 2], "/")
    ensures var rest := Trail(segs, upper);
      |rest| >= 1 ==> rest[|rest| - 1].href == "/dashboard/" + Join(segs[1..], "/")
  {
    var rest := Trail(segs, upper);
    forall i | 0 <= i < |rest| ensures rest[i].href == "/dashboard/" + Join(segs[1..i + 2], "/") {
    }
    if |rest| >= 1 {
      assert segs[1..|rest| + 1] == segs[1..];
    }
  }

  /** The rendered trail. Crumb i (i >= 1) stands for segment i, links to "/dashboard/"
      followed by segments 1 .. i, and is marked when it is the last. */
  function Crumbs(path: string, upper: string -> string): (r: seq<Crumb>)
    ensures |r| == (if |Segments(path)| == 0 then 1 else |Segments(path)|)
    ensures r[0] == DashboardCrumb
    ensures forall i :: 1 <= i < |r| ==> r[i].text == Label(Segments(path)[i], upper)
    ensures forall i :: 0 <= i < |r| ==> (r[i].current <==> i >= 1 && i == |r| - 1)
    ensures |r| >= 2 ==> r[1].href == DashboardHref + "/" + Segments(path)[1]
    ensures forall i :: 1 <= i < |r| - 1 ==> r[i + 1].href == r[i].href + "/" + Segments(path)[i + 1]
    ensures |r| >= 2 ==> r[|r| - 1].href == DashboardHref + "/" + Join(Segments(path)[1..], "/")
  {
    var segs := Segments(path);
    var rest := Trail(segs, upper);
    TrailHrefs(segs, upper);
    TrailAfterDashboard(segs, rest, upper, [DashboardCrumb] + rest);
    [DashboardCrumb] + rest
  }

  /** The facts about the whole trail, from those about the crumbs after the first. */
  lemma TrailAfterDashboard(segs: seq<string>, rest: seq<Crumb>, upper: string -> string, r: seq<Crumb>)
    requires |rest| == (if |segs| == 0 then 0 else |segs| - 1)
    requires forall i :: 0 <= i < |rest| ==> rest[i].text == Label(segs[i + 1], upper)
    requires forall i :: 0 <= i < |rest| ==> rest[i].href == "/dashboard/" + Join(segs[1..i + 2], "/")
    requires forall i :: 0 <= i < |rest| ==> (rest[i].current <==> i == |rest| - 1)
    requires |rest| >= 1 ==> rest[|rest| - 1].href == "/dashboard/" + Join(segs[1..], "/")
    requires r == [DashboardCrumb] + rest
    ensures |r| == (if |segs| == 0 then 1 else |segs|)
    ensures r[0] == DashboardCrumb
    ensures forall i :: 1 <= i < |r| ==> r[i].text == Label(segs[i], upper)
    ensures forall i :: 0 <= i < |r| ==> (r[i].current <==> i >= 1 && i == |r| - 1)
    ensures |r| >= 2 ==> r[1].href == DashboardHref + "/" + segs[1]
    ensures forall i :: 1 <= i < |r| - 1 ==> r[i + 1].href == r[i].href + "/" + segs[i + 1]
    ensures |r| >= 2 ==> r[|r| - 1].href == DashboardHref + "/" + Join(segs[1..], "/")
  {
    HrefsExtend(segs, rest);
    forall i | 1 <= i < |r| ensures r[i] == rest[i - 1] {
    }
    forall i | 1 <= i < |r| ensures r[i].text == Label(segs[i], upper) {
      assert r[i] == rest[i - 1];
    }
    forall i | 0 <= i < |r| ensures (r[i].current <==> i >= 1 && i == |r| - 1) {
      if i >= 1 {
        assert r[i] == rest[i - 1];
      }
    }
    forall i | 1 <= i < |r| - 1 ensures r[i + 1].href == r[i].href + "/" + segs[i + 1] {
      assert r[i] == rest[i - 1] && r[i + 1] == rest[i];
    }
    if |r| >= 2 {
      assert r[1] == rest[0] && r[|r| - 1] == rest[|rest| - 1];
    }
  }

  lemma HrefsExtend(segs: seq<string>, rest: seq<Crumb>)
    requires |rest| == (if |segs| == 0 then 0 else |segs| - 1)
    requires forall i :: 0 <= i < |rest| ==> rest[i].href == "/dashboard/" + Join(segs[1..i + 2], "/")
    ensures forall i :: 0 <= i < |rest| - 1 ==> rest[i + 1].href == rest[i].href + "/" + segs[i + 2]
    ensures |rest| >= 1 ==> rest[0].href == DashboardHref + "/" + segs[1]
  {
    forall i | 0 <= i < |rest| - 1
      ensures rest[i + 1].href == rest[i].href + "/" + segs[i + 2]
    {
      assert segs[1..i + 3] == segs[1..i + 2] + [segs[i + 2]];
      JoinSnoc(segs[1..i + 2], segs[i + 2], "/");
    }
    if |rest| >= 1 {
      assert segs[1..2] == [segs[1]];
    }
  }
}
