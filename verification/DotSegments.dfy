/** Two ways to remove dot segments (compare section 5.2.4 of RFC 3986): the stack of `normalizeArray` in lib/path.js,
    and the loop of `resolveObject` in lib/url.js, which splices from the right and counts how far up it has to go. */
module DotSegments {
  type Segment = string

  const HERE: Segment := "."
  const UP: Segment := ".."

  /** A segment that names something. */
  predicate Name(p: Segment) {
    p != HERE && p != UP
  }

  // ---- left to right ----

  function Step(res: seq<Segment>, p: Segment, allowAboveRoot: bool): seq<Segment> {
    if p == "" || p == HERE then res
    else if p != UP then res + [p]
    else if res != [] && res[|res| - 1] != UP then res[..|res| - 1]
    else if allowAboveRoot then res + [UP]
    else res
  }

  function Fold(res: seq<Segment>, parts: seq<Segment>, allowAboveRoot: bool): seq<Segment>
    decreases |parts|
  {
    if parts == [] then res else Fold(Step(res, parts[0], allowAboveRoot), parts[1..], allowAboveRoot)
  }

  function Normal(parts: seq<Segment>, allowAboveRoot: bool): seq<Segment> {
    Fold([], parts, allowAboveRoot)
  }

  method NormalizeArray(parts: seq<Segment>, allowAboveRoot: bool) returns (res: seq<Segment>)
    ensures res == Normal(parts, allowAboveRoot)
  {
    res := [];
    assert parts[0..] == parts;
    for i := 0 to |parts|
      invariant Fold(res, parts[i..], allowAboveRoot) == Normal(parts, allowAboveRoot)
    {
      var p := parts[i];
      assert parts[i..][1..] == parts[i + 1..];
      if p == "" || p == HERE {
        continue;
      }
      if p == UP {
        if |res| > 0 && res[|res| - 1] != UP {
          res := res[..|res| - 1];
        } else if allowAboveRoot {
          res := res + [UP];
        }
      } else {
        res := res + [p];
      }
    }
  }

  // ---- right to left ----

  /** `spliceOne`: the elements behind the index move down and the last one goes. */
  method SpliceOne(list: array<Segment>, length: nat, index: nat, ghost parts: seq<Segment>, ghost tail: seq<Segment>)
    requires index < length <= list.Length && index < |parts| && list[..length] == parts[..index + 1] + tail
    modifies list
    ensures list[..length - 1] == parts[..index] + tail
  {
    ghost var before := list[..length];
    var i := index;
    while i + 1 < length
      invariant index <= i < length
      invariant forall j :: 0 <= j < index ==> list[j] == before[j]
      invariant forall j :: index <= j < i ==> list[j] == before[j + 1]
      invariant forall j :: i < j < length ==> list[j] == before[j]
    {
      list[i] := list[i + 1];
      i := i + 1;
    }
    Spliced(before, list[..length - 1], index, parts, tail);
  }

  lemma Spliced(before: seq<Segment>, after: seq<Segment>, index: nat, parts: seq<Segment>, tail: seq<Segment>)
    requires index < |parts| && index < |before| == |after| + 1 && before == parts[..index + 1] + tail
    requires forall j :: 0 <= j < index ==> after[j] == before[j]
    requires forall j :: index <= j < |after| ==> after[j] == before[j + 1]
    ensures after == parts[..index] + tail
  {
    var wanted := parts[..index] + tail;
    assert |after| == |wanted|;
    forall j | 0 <= j < |after|
      ensures after[j] == wanted[j]
    {
      if j < index {
        assert after[j] == before[j] == parts[j] == wanted[j];
      } else {
        assert after[j] == before[j + 1] == tail[j - index] == wanted[j];
      }
    }
  }

  /** What remains of the segments, and how far up it has to go from the start. */
  function Climb(parts: seq<Segment>, up: nat): (seq<Segment>, nat) {
    if parts == [] then ([], up)
    else
      var front, last := parts[..|parts| - 1], parts[|parts| - 1];
      if last == HERE then Climb(front, up)
      else if last == UP then Climb(front, up + 1)
      else if up > 0 then Climb(front, up - 1)
      else var (kept, more) := Climb(front, 0); (kept + [last], more)
  }

  function Ups(n: nat): (r: seq<Segment>)
    ensures |r| == n && forall k :: 0 <= k < n ==> r[k] == UP
  {
    if n == 0 then [] else [UP] + Ups(n - 1)
  }

  /** What the loop still has to do with the first j segments, before a tail it has dealt with. */
  ghost predicate Climbing(parts: seq<Segment>, j: nat, up: nat, tail: seq<Segment>) {
    && j <= |parts|
    && var (kept, more) := Climb(parts[..j], up);
       Climb(parts, 0) == (kept + tail, more)
  }

  lemma ClimbBegins(parts: seq<Segment>)
    ensures Climbing(parts, |parts|, 0, [])
  {
    assert parts[..|parts|] == parts && Climb(parts, 0).0 + [] == Climb(parts, 0).0;
  }

  lemma ClimbStep(parts: seq<Segment>, j: nat, up: nat, tail: seq<Segment>)
    requires Climbing(parts, j + 1, up, tail) && j < |parts|
    ensures parts[j] == HERE ==> Climbing(parts, j, up, tail)
    ensures parts[j] == UP ==> Climbing(parts, j, up + 1, tail)
    ensures Name(parts[j]) && up > 0 ==> Climbing(parts, j, up - 1, tail)
    ensures Name(parts[j]) && up == 0 ==> Climbing(parts, j, up, [parts[j]] + tail)
  {
    assert parts[..j + 1][..j] == parts[..j];
    var (kept, _) := Climb(parts[..j], 0);
    assert kept + [parts[j]] + tail == kept + ([parts[j]] + tail);
  }

  /** The segments not looked at yet, and behind them those that stay, are what the list holds. */
  ghost predicate Holding(list: seq<Segment>, length: nat, parts: seq<Segment>, j: nat, up: nat, tail: seq<Segment>) {
    Climbing(parts, j, up, tail) && length <= |list| && list[..length] == parts[..j] + tail
  }

  lemma HoldingBegins(parts: seq<Segment>)
    ensures Holding(parts, |parts|, parts, |parts|, 0, [])
  {
    ClimbBegins(parts);
    assert parts[..|parts|] == parts[..|parts|] + [];
  }

  /** The body of the loop over `srcPath`. */
  method ClimbOver(list: array<Segment>, length: nat, i: nat, up: nat, ghost parts: seq<Segment>, ghost tail: seq<Segment>)
    returns (length': nat, up': nat, ghost tail': seq<Segment>)
    requires i < |parts| && Holding(list[..], length, parts, i + 1, up, tail)
    modifies list
    ensures Holding(list[..], length', parts, i, up', tail')
  {
    assert list[..][..length] == list[..length];
    assert list[i] == (parts[..i + 1] + tail)[i] == parts[i];
    ClimbStep(parts, i, up, tail);
    hide Climbing;
    var last := list[i];
    length', up', tail' := length, up, tail;
    if last == HERE || last == UP || up > 0 {
      SpliceOne(list, length, i, parts, tail);
      length' := length - 1;
      up' := if last == HERE then up else if last == UP then up + 1 else up - 1;
      assert list[..][..length'] == list[..length'];
    } else {
      assert parts[..i + 1] + tail == parts[..i] + ([last] + tail);
      tail' := [last] + tail;
    }
  }

  /** The loop over `srcPath`, which starts one past the end. */
  method ResolveDots(parts: seq<Segment>, restore: bool) returns (srcPath: seq<Segment>, up: nat)
    ensures var (kept, more) := Climb(parts, 0);
            if restore then srcPath == Ups(more) + kept && up == 0 else srcPath == kept && up == more
  {
    var list := new Segment[|parts|](i requires 0 <= i < |parts| => parts[i]);
    assert list[..] == parts;
    HoldingBegins(parts);
    var length: nat := |parts|;
    up := 0;
    ghost var tail: seq<Segment> := [];
    var i := length;
    hide Holding, Climb;
    while i >= 0
      invariant -1 <= i <= |parts| && fresh(list)
      invariant Holding(list[..], length, parts, if i < |parts| then i + 1 else i, up, tail)
      decreases i
    {
      if i < |parts| {
        length, up, tail := ClimbOver(list, length, i, up, parts, tail);
      }
      i := i - 1;
    }
    HoldingEnds(list[..], length, parts, up, tail);
    srcPath := list[..][..length];
    if restore {
      srcPath, up := Restore(srcPath, up);
    }
  }

  lemma HoldingEnds(list: seq<Segment>, length: nat, parts: seq<Segment>, up: nat, tail: seq<Segment>)
    requires Holding(list, length, parts, 0, up, tail)
    ensures length <= |list| && Climb(parts, 0) == (list[..length], up)
  {
    ClimbEnds(parts, up, tail);
    assert parts[..0] + tail == tail;
  }

  /** The leading `..` are put back. */
  method Restore(kept: seq<Segment>, more: nat) returns (srcPath: seq<Segment>, up: nat)
    ensures srcPath == Ups(more) + kept && up == 0
  {
    srcPath, up := kept, more;
    while up > 0
      invariant up <= more && srcPath == Ups(more - up) + kept
    {
      up, srcPath := up - 1, [UP] + srcPath;
    }
  }

  lemma ClimbEnds(parts: seq<Segment>, up: nat, tail: seq<Segment>)
    requires Climbing(parts, 0, up, tail)
    ensures Climb(parts, 0) == (tail, up)
  {
    assert [] + tail == tail;
  }

  // ---- both ways agree ----

  lemma {:induction false} FoldConcat(res: seq<Segment>, a: seq<Segment>, b: seq<Segment>, above: bool)
    ensures Fold(res, a + b, above) == Fold(Fold(res, a, above), b, above)
    decreases |a|
  {
    if a == [] {
      assert a + b == b;
    } else {
      assert (a + b)[0] == a[0] && (a + b)[1..] == a[1..] + b;
      FoldConcat(Step(res, a[0], above), a[1..], b, above);
    }
  }

  lemma FoldOne(res: seq<Segment>, p: Segment, above: bool)
    ensures Fold(res, [p], above) == Step(res, p, above)
  {
  }

  lemma UpsMore(n: nat)
    ensures Ups(n + 1) == Ups(n) + [UP]
  {
  }

  lemma {:induction false} FoldUps(n: nat)
    ensures Normal(Ups(n), true) == Ups(n) && Normal(Ups(n), false) == []
  {
    if n > 0 {
      UpsMore(n - 1);
      FoldUps(n - 1);
      FoldConcat([], Ups(n - 1), [UP], true);
      FoldConcat([], Ups(n - 1), [UP], false);
      FoldOne(Ups(n - 1), UP, true);
      FoldOne([], UP, false);
      hide Fold;
    }
  }

  predicate NoEmpty(parts: seq<Segment>) {
    forall k :: 0 <= k < |parts| ==> parts[k] != ""
  }

  /** The segments the loop has still to look at, with the steps up it has counted behind them. */
  lemma ClimbMeets(front: seq<Segment>, p: Segment, up: nat, above: bool)
    requires p != ""
    ensures p == HERE ==> Normal(front + [p] + Ups(up), above) == Normal(front + Ups(up), above)
    ensures p == UP ==> Normal(front + [p] + Ups(up), above) == Normal(front + Ups(up + 1), above)
    ensures Name(p) && up > 0 ==> Normal(front + [p] + Ups(up), above) == Normal(front + Ups(up - 1), above)
    ensures Name(p) && up == 0 ==> Normal(front + [p] + Ups(up), above) == Normal(front, above) + [p]
  {
    NormalBehind(front, p, Ups(up), above);
    if p == UP {
      assert [UP] + Ups(up) == Ups(up + 1);
      assert front + [p] + Ups(up) == front + Ups(up + 1);
    } else if Name(p) && up > 0 {
      assert Ups(up) == [UP] + Ups(up - 1);
      var res := Normal(front, above);
      FoldCons(res + [p], UP, Ups(up - 1), above);
      assert (res + [p])[..|res|] == res;
      FoldConcat([], front, Ups(up - 1), above);
    } else if Name(p) {
      assert Fold(Normal(front, above) + [p], [], above) == Normal(front, above) + [p];
    } else {
      FoldConcat([], front, Ups(up), above);
    }
    hide Fold, Ups;
  }

  /** What follows a segment is folded on after its step. */
  lemma NormalBehind(front: seq<Segment>, p: Segment, rest: seq<Segment>, above: bool)
    ensures Normal(front + [p] + rest, above) == Fold(Step(Normal(front, above), p, above), rest, above)
  {
    assert front + [p] + rest == front + ([p] + rest);
    FoldConcat([], front, [p] + rest, above);
    FoldCons(Normal(front, above), p, rest, above);
    hide Fold, Step;
  }

  lemma FoldCons(res: seq<Segment>, p: Segment, parts: seq<Segment>, above: bool)
    ensures Fold(res, [p] + parts, above) == Fold(Step(res, p, above), parts, above)
  {
    assert ([p] + parts)[1..] == parts;
  }

  /** On segments that are not empty, the loop of url.js gives the result of the stack of path.js. */
  lemma {:induction false} ClimbIsNormal(parts: seq<Segment>, up: nat)
    requires NoEmpty(parts)
    ensures var (kept, more) := Climb(parts, up);
            Ups(more) + kept == Normal(parts + Ups(up), true) && kept == Normal(parts + Ups(up), false)
    decreases |parts|
  {
    if parts == [] {
      FoldUps(up);
      assert parts + Ups(up) == Ups(up);
    } else {
      var front, last := parts[..|parts| - 1], parts[|parts| - 1];
      assert parts == front + [last];
      ClimbMeets(front, last, up, true);
      ClimbMeets(front, last, up, false);
      hide Normal;
      if last == HERE {
        ClimbIsNormal(front, up);
      } else if last == UP {
        ClimbIsNormal(front, up + 1);
      } else if up > 0 {
        ClimbIsNormal(front, up - 1);
      } else {
        ClimbIsNormal(front, 0);
        assert front + Ups(0) == front;
      }
    }
  }

  /** Restoring the steps up gives `normalizeArray(parts, true)`, dropping them `normalizeArray(parts, false)`. */
  lemma UrlAgreesWithPath(parts: seq<Segment>)
    requires NoEmpty(parts)
    ensures var (kept, more) := Climb(parts, 0);
            Ups(more) + kept == Normal(parts, true) && kept == Normal(parts, false)
  {
    ClimbIsNormal(parts, 0);
    assert parts + Ups(0) == parts;
    hide Climb, Normal;
  }

  // ---- with empty segments they differ ----

  /** How deep a list of segments leads: names count up, `..` counts down. Empty segments count `blank`. */
  function Depth(parts: seq<Segment>, blank: int): int {
    if parts == [] then 0
    else Depth(parts[..|parts| - 1], blank) + DepthOf(parts[|parts| - 1], blank)
  }

  function DepthOf(p: Segment, blank: int): int {
    if p == UP then -1 else if p == HERE then 0 else if p == "" then blank else 1
  }

  lemma DepthMore(parts: seq<Segment>, p: Segment, blank: int)
    ensures Depth(parts + [p], blank) == Depth(parts, blank) + DepthOf(p, blank)
  {
    assert (parts + [p])[..|parts|] == parts;
  }

  lemma DepthLess(parts: seq<Segment>, blank: int)
    requires parts != []
    ensures Depth(parts, blank) == Depth(parts[..|parts| - 1], blank) + DepthOf(parts[|parts| - 1], blank)
  {
  }

  lemma StepDepth(res: seq<Segment>, p: Segment)
    requires forall q :: q in res ==> q != "" && q != HERE
    ensures Depth(Step(res, p, true), 1) == Depth(res, 1) + DepthOf(p, 0)
    ensures forall q :: q in Step(res, p, true) ==> q != "" && q != HERE
  {
    DepthMore(res, p, 1);
    DepthMore(res, UP, 1);
    if res != [] {
      assert res[|res| - 1] in res;
      DepthLess(res, 1);
    }
    hide Depth;
  }

  /** The stack keeps the depth of what it sees, and it does not see empty segments. */
  lemma {:induction false} NormalDepth(parts: seq<Segment>)
    ensures Depth(Normal(parts, true), 1) == Depth(parts, 0)
    ensures forall q :: q in Normal(parts, true) ==> q != "" && q != HERE
    decreases |parts|
  {
    if parts != [] {
      var front, last := parts[..|parts| - 1], parts[|parts| - 1];
      assert parts == front + [last];
      FoldConcat([], front, [last], true);
      hide Fold, Step, Depth;
      FoldOne(Normal(front, true), last, true);
      NormalDepth(front);
      StepDepth(Normal(front, true), last);
      DepthMore(front, last, 0);
    }
  }

  lemma {:induction false} UpsDepth(n: nat, kept: seq<Segment>)
    ensures Depth(Ups(n) + kept, 1) == Depth(kept, 1) - n
    decreases |kept|, n
  {
    if kept != [] {
      var front, last := kept[..|kept| - 1], kept[|kept| - 1];
      assert Ups(n) + kept == (Ups(n) + front) + [last] && kept == front + [last];
      DepthMore(Ups(n) + front, last, 1);
      DepthMore(front, last, 1);
      UpsDepth(n, front);
      hide Depth;
    } else if n > 0 {
      UpsMore(n - 1);
      assert Ups(n) + kept == Ups(n - 1) + [UP] && Ups(n - 1) + [] == Ups(n - 1);
      DepthMore(Ups(n - 1), UP, 1);
      UpsDepth(n - 1, []);
    }
  }

  /** The loop keeps the depth too, but it takes an empty segment for a name. */
  lemma {:induction false} ClimbDepth(parts: seq<Segment>, up: nat)
    ensures var (kept, more) := Climb(parts, up); Depth(kept, 1) - more == Depth(parts, 1) - up
    decreases |parts|
  {
    if parts != [] {
      var front, last := parts[..|parts| - 1], parts[|parts| - 1];
      DepthLess(parts, 1);
      hide Depth;
      if last == HERE {
        ClimbDepth(front, up);
      } else if last == UP {
        ClimbDepth(front, up + 1);
      } else if up > 0 {
        ClimbDepth(front, up - 1);
      } else {
        ClimbDepth(front, 0);
        DepthMore(Climb(front, 0).0, last, 1);
      }
    }
  }

  lemma {:induction false} BlanksCount(parts: seq<Segment>)
    ensures Depth(parts, 0) <= Depth(parts, 1)
    ensures Depth(parts, 0) == Depth(parts, 1) ==> NoEmpty(parts)
    decreases |parts|
  {
    if parts != [] {
      BlanksCount(parts[..|parts| - 1]);
    }
  }

  /** With the steps up restored, the two agree exactly on the lists without an empty segment. */
  lemma UrlAgreesExactlyWhen(parts: seq<Segment>)
    ensures var (kept, more) := Climb(parts, 0); Ups(more) + kept == Normal(parts, true) <==> NoEmpty(parts)
  {
    var (kept, more) := Climb(parts, 0);
    if NoEmpty(parts) {
      UrlAgreesWithPath(parts);
    } else {
      ClimbDepth(parts, 0);
      UpsDepth(more, kept);
      NormalDepth(parts);
      BlanksCount(parts);
    }
    hide Climb, Normal, Depth;
  }

  // ---- without the steps up ----

  /** The loop as it would be if it skipped empty segments. */
  function ClimbSkip(parts: seq<Segment>, up: nat): (seq<Segment>, nat) {
    if parts == [] then ([], up)
    else
      var front, last := parts[..|parts| - 1], parts[|parts| - 1];
      if last == HERE || last == "" then ClimbSkip(front, up)
      else if last == UP then ClimbSkip(front, up + 1)
      else if up > 0 then ClimbSkip(front, up - 1)
      else var (kept, more) := ClimbSkip(front, 0); (kept + [last], more)
  }

  lemma {:induction false} ClimbSkipIsNormal(parts: seq<Segment>, up: nat)
    ensures ClimbSkip(parts, up).0 == Normal(parts + Ups(up), false)
    decreases |parts|
  {
    if parts == [] {
      FoldUps(up);
      assert parts + Ups(up) == Ups(up);
    } else {
      var front, last := parts[..|parts| - 1], parts[|parts| - 1];
      assert parts == front + [last];
      if last == "" {
        BlankMeets(front, up);
        ClimbSkipIsNormal(front, up);
      } else {
        ClimbMeets(front, last, up, false);
        if last == HERE {
          ClimbSkipIsNormal(front, up);
        } else if last == UP {
          ClimbSkipIsNormal(front, up + 1);
        } else if up > 0 {
          ClimbSkipIsNormal(front, up - 1);
        } else {
          ClimbSkipIsNormal(front, 0);
          assert front + Ups(0) == front;
        }
      }
      hide Normal;
    }
  }

  lemma BlankMeets(front: seq<Segment>, up: nat)
    ensures Normal(front + [""] + Ups(up), false) == Normal(front + Ups(up), false)
  {
    FoldConcat([], front, [""] + Ups(up), false);
    assert front + [""] + Ups(up) == front + ([""] + Ups(up));
    assert ([""] + Ups(up))[1..] == Ups(up);
    FoldConcat([], front, Ups(up), false);
  }

  lemma {:induction false} ClimbConcat(a: seq<Segment>, b: seq<Segment>, up: nat)
    ensures var (kb, ub) := Climb(b, up); var (ka, ua) := Climb(a, ub); Climb(a + b, up) == (ka + kb, ua)
    ensures var (kb, ub) := ClimbSkip(b, up); var (ka, ua) := ClimbSkip(a, ub); ClimbSkip(a + b, up) == (ka + kb, ua)
    decreases |b|
  {
    if b == [] {
      assert a + b == a && Climb(a, up).0 + [] == Climb(a, up).0 && ClimbSkip(a, up).0 + [] == ClimbSkip(a, up).0;
    } else {
      var front, last := b[..|b| - 1], b[|b| - 1];
      assert (a + b)[..|a + b| - 1] == a + front && (a + b)[|a + b| - 1] == last;
      ClimbConcat(a, front, up);
      ClimbConcat(a, front, up + 1);
      if up > 0 {
        ClimbConcat(a, front, up - 1);
      }
      ClimbConcat(a, front, 0);
      var kb, kb' := Climb(front, 0), ClimbSkip(front, 0);
      var ka, ka' := Climb(a, kb.1).0, ClimbSkip(a, kb'.1).0;
      assert (ka + kb.0) + [last] == ka + (kb.0 + [last]) && (ka' + kb'.0) + [last] == ka' + (kb'.0 + [last]);
    }
  }

  lemma {:induction false} ClimbSame(parts: seq<Segment>, up: nat)
    requires NoEmpty(parts)
    ensures Climb(parts, up) == ClimbSkip(parts, up)
    decreases |parts|
  {
    if parts != [] {
      var front := parts[..|parts| - 1];
      ClimbSame(front, up);
      ClimbSame(front, up + 1);
      if up > 0 {
        ClimbSame(front, up - 1);
      }
      ClimbSame(front, 0);
    }
  }

  /** Going further up keeps less, and strictly less if anything was kept. */
  lemma {:induction false} HigherKeepsLess(parts: seq<Segment>, up: nat, higher: nat)
    requires up <= higher
    ensures |ClimbSkip(parts, higher).0| <= |Climb(parts, up).0|
    ensures up < higher && Climb(parts, up).0 != [] ==> |ClimbSkip(parts, higher).0| < |Climb(parts, up).0|
    decreases |parts|
  {
    if parts != [] {
      var front, last := parts[..|parts| - 1], parts[|parts| - 1];
      if last == HERE {
        HigherKeepsLess(front, up, higher);
      } else if last == UP {
        HigherKeepsLess(front, up + 1, higher + 1);
      } else if last == "" {
        HigherKeepsLess(front, if up > 0 then up - 1 else 0, higher);
      } else {
        HigherKeepsLess(front, if up > 0 then up - 1 else 0, if higher > 0 then higher - 1 else 0);
      }
    }
  }

  /** The number of segments up to the last empty one. */
  function Blanked(parts: seq<Segment>): (q: nat)
    ensures q <= |parts| && NoEmpty(parts[q..]) && (q > 0 ==> parts[q - 1] == "")
  {
    if parts == [] then 0
    else if parts[|parts| - 1] == "" then |parts|
    else
      var q := Blanked(parts[..|parts| - 1]);
      assert parts[q..] == parts[..|parts| - 1][q..] + [parts[|parts| - 1]];
      q
  }

  lemma BlankMatters(a: seq<Segment>, up: nat)
    requires a == [] || a[|a| - 1] == ""
    ensures Climb(a, up).0 == ClimbSkip(a, up).0 <==> Climb(a, up).0 == []
  {
    if a != [] {
      var front := a[..|a| - 1];
      HigherKeepsLess(front, if up > 0 then up - 1 else 0, up);
    }
  }

  lemma {:induction false} DepthCons(p: Segment, parts: seq<Segment>, blank: int)
    ensures Depth([p] + parts, blank) == DepthOf(p, blank) + Depth(parts, blank)
    decreases |parts|
  {
    if parts == [] {
      assert [p] + parts == [p] && [p][..0] == [];
    } else {
      var front, last := parts[..|parts| - 1], parts[|parts| - 1];
      assert ([p] + parts)[..|parts|] == [p] + front;
      DepthCons(p, front, blank);
    }
  }

  /** The greatest depth of what follows any place from k on. */
  function Peak(parts: seq<Segment>, k: nat): (d: int)
    requires k <= |parts|
    ensures d >= 0 && (exists j :: k <= j <= |parts| && Depth(parts[j..], 1) == d)
    ensures forall j :: k <= j <= |parts| ==> Depth(parts[j..], 1) <= d
    decreases |parts| - k
  {
    if k == |parts| then
      assert Depth(parts[k..], 1) == 0;
      0
    else
      var d := Peak(parts, k + 1);
      if Depth(parts[k..], 1) > d then Depth(parts[k..], 1) else d
  }

  /** From place k on, the loop keeps as many segments as the greatest depth, and is that much above where they lead. */
  lemma {:induction false} ClimbIsPeak(parts: seq<Segment>, k: nat)
    requires k <= |parts|
    ensures |Climb(parts[k..], 0).0| == Peak(parts, k) && Climb(parts[k..], 0).1 == Peak(parts, k) - Depth(parts[k..], 1)
    decreases |parts| - k
  {
    if k < |parts| {
      var p, rest := parts[k], parts[k + 1..];
      assert parts[k..] == [p] + rest;
      ClimbIsPeak(parts, k + 1);
      DepthCons(p, rest, 1);
      ClimbConcat([p], rest, 0);
      ClimbOne(p, Climb(rest, 0).1);
      hide Climb, Depth;
    }
  }

  lemma ClimbOne(p: Segment, up: nat)
    ensures var (kept, more) := Climb([p], up); |kept| - more == DepthOf(p, 1) - up && (|kept| == 1 <==> Name(p) && up == 0) && |kept| <= 1
  {
    assert [p][..0] == [];
  }

  /** No place up to the last empty segment leads deeper than every place behind it. */
  ghost predicate Swallowed(parts: seq<Segment>) {
    var q := Blanked(parts);
    forall k :: 0 <= k < q ==> exists j :: q <= j <= |parts| && Depth(parts[k..], 1) <= Depth(parts[j..], 1)
  }

  lemma SwallowedIsPeak(parts: seq<Segment>)
    ensures Swallowed(parts) <==> Peak(parts, 0) == Peak(parts, Blanked(parts))
  {
    var q := Blanked(parts);
    PeakGrows(parts, 0, q);
    var top :| q <= top <= |parts| && Depth(parts[top..], 1) == Peak(parts, q);
    if Peak(parts, 0) == Peak(parts, q) {
      forall k | 0 <= k < q
        ensures exists j :: q <= j <= |parts| && Depth(parts[k..], 1) <= Depth(parts[j..], 1)
      {
        assert Depth(parts[k..], 1) <= Depth(parts[top..], 1);
      }
    } else {
      var k :| 0 <= k <= |parts| && Depth(parts[k..], 1) == Peak(parts, 0);
      assert k < q;
      assert forall j :: q <= j <= |parts| ==> Depth(parts[j..], 1) < Depth(parts[k..], 1);
    }
    hide Depth, Peak;
  }

  lemma {:induction false} PeakGrows(parts: seq<Segment>, k: nat, q: nat)
    requires k <= q <= |parts|
    ensures Peak(parts, k) >= Peak(parts, q)
    decreases q - k
  {
    if k < q {
      PeakGrows(parts, k + 1, q);
    }
  }

  /** With the steps up dropped, the two agree exactly when no place up to the last empty segment leads deeper than
      every place behind it. */
  lemma UrlAgreesBelowRootExactlyWhen(parts: seq<Segment>)
    ensures Climb(parts, 0).0 == Normal(parts, false) <==> Swallowed(parts)
  {
    var q := Blanked(parts);
    var a, b := parts[..q], parts[q..];
    assert parts == a + b && parts[0..] == parts;
    ClimbConcat(a, b, 0);
    ClimbSame(b, 0);
    var (kb, up) := Climb(b, 0);
    BlankMatters(a, up);
    ClimbSkipIsNormal(parts, 0);
    assert parts + Ups(0) == parts;
    var ka, ka' := Climb(a, up).0, ClimbSkip(a, up).0;
    assert (ka + kb)[..|ka|] == ka;
    assert ka + kb == ka' + kb ==> |ka| == |ka'| && (ka' + kb)[..|ka|] == ka';
    ClimbIsPeak(parts, 0);
    ClimbIsPeak(parts, q);
    SwallowedIsPeak(parts);
    hide Climb, ClimbSkip, Normal, Swallowed, Peak;
  }

  /** So an empty segment can make a difference there too. */
  lemma UrlDiffersOnBlanks()
    ensures Climb(["a", "", UP], 0) == (["a"], 0) && Normal(["a", "", UP], false) == []
  {
    assert ["a", "", UP][..2] == ["a", ""] && ["a", ""][..1] == ["a"] && ["a"][..0] == [];
    assert "a"[0] != '.' && [] + ["a"] == ["a"];
    assert Climb(["a"], 0) == (["a"], 0);
    assert Climb(["a", ""], 1) == (["a"], 0);
    assert ["a", "", UP][1..] == ["", UP] && ["", UP][1..] == [UP] && [UP][1..] == [];
    assert Step([], "a", false) == ["a"] && Step(["a"], "", false) == ["a"] && Step(["a"], UP, false) == [];
    assert Fold(["a"], [UP], false) == [];
    assert Fold(["a"], ["", UP], false) == [];
  }
}
