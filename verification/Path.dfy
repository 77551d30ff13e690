/** `resolve`, `normalize` and `relative` of the posix half of lib/path.js. */
module Path {
  import opened DotSegments

  // ---- splitting and joining at slashes ----

  function Split(s: string): (r: seq<string>)
    ensures |r| >= 1
  {
    if s == "" then [""]
    else
      var rest := Split(s[1..]);
      if s[0] == '/' then [""] + rest else [[s[0]] + rest[0]] + rest[1..]
  }

  function Join(parts: seq<string>): string {
    if parts == [] then "" else if |parts| == 1 then parts[0] else parts[0] + "/" + Join(parts[1..])
  }

  predicate NoSlash(p: string) {
    forall k :: 0 <= k < |p| ==> p[k] != '/'
  }

  predicate AllNoSlash(parts: seq<string>) {
    forall k :: 0 <= k < |parts| ==> NoSlash(parts[k])
  }

  lemma {:induction false} SplitConcat(a: string, b: string)
    ensures Split(a + "/" + b) == Split(a) + Split(b)
  {
    var s := a + "/" + b;
    if a == "" {
      assert s[0] == '/' && s[1..] == b;
    } else {
      assert s[0] == a[0] && s[1..] == a[1..] + "/" + b;
      SplitConcat(a[1..], b);
    }
  }

  lemma {:induction false} SplitPart(p: string)
    requires NoSlash(p)
    ensures Split(p) == [p]
  {
    if p != "" {
      SplitPart(p[1..]);
      assert [p[0]] + p[1..] == p;
    }
  }

  lemma {:induction false} SplitParts(s: string)
    ensures AllNoSlash(Split(s))
  {
    if s != "" {
      SplitParts(s[1..]);
    }
  }

  lemma {:induction false} SplitJoin(parts: seq<string>)
    requires AllNoSlash(parts) && parts != []
    ensures Split(Join(parts)) == parts
  {
    SplitPart(parts[0]);
    if |parts| > 1 {
      SplitConcat(parts[0], Join(parts[1..]));
      SplitJoin(parts[1..]);
    }
  }

  // ---- normal lists of segments ----

  /** No blanks, no dots, and `..` only at the front, if at all. */
  predicate Normalized(parts: seq<string>, above: bool) {
    && (forall k :: 0 <= k < |parts| ==> parts[k] != "" && parts[k] != HERE && NoSlash(parts[k]))
    && (forall k :: 0 <= k < |parts| && parts[k] == UP ==> above)
    && (forall j, k :: 0 <= j < k < |parts| && parts[k] == UP ==> parts[j] == UP)
  }

  lemma StepNormalized(res: seq<string>, p: string, above: bool)
    requires Normalized(res, above) && NoSlash(p)
    ensures Normalized(Step(res, p, above), above)
  {
    hide NoSlash;
  }

  lemma {:induction false} NormalIsNormalized(parts: seq<string>, above: bool)
    requires AllNoSlash(parts)
    ensures Normalized(Normal(parts, above), above)
    decreases |parts|
  {
    if parts != [] {
      var front, last := parts[..|parts| - 1], parts[|parts| - 1];
      assert parts == front + [last];
      FoldConcat([], front, [last], above);
      FoldOne(Normal(front, above), last, above);
      NormalIsNormalized(front, above);
      StepNormalized(Normal(front, above), last, above);
      hide Fold, Step, Normalized;
    }
  }

  lemma {:induction false} NormalizedIsFixed(parts: seq<string>, above: bool)
    requires Normalized(parts, above)
    ensures Normal(parts, above) == parts
    decreases |parts|
  {
    if parts != [] {
      var front, last := parts[..|parts| - 1], parts[|parts| - 1];
      assert parts == front + [last];
      FoldConcat([], front, [last], above);
      FoldOne(front, last, above);
      NormalizedIsFixed(front, above);
      hide Fold;
    }
  }

  /** Blanks around a list make no difference. */
  lemma NormalBlanks(parts: seq<string>, above: bool)
    ensures Normal(parts + [""], above) == Normal(parts, above) && Normal([""] + parts, above) == Normal(parts, above)
  {
    FoldConcat([], parts, [""], above);
    FoldOne(Normal(parts, above), "", above);
    FoldConcat([], [""], parts, above);
    FoldOne([], "", above);
  }

  // ---- normalize ----

  predicate IsAbsolute(path: string) {
    path != "" && path[0] == '/'
  }

  predicate EndsInSlash(path: string) {
    path != "" && path[|path| - 1] == '/'
  }

  function Normalize(path: string): string {
    var isAbsolute := IsAbsolute(path);
    var joined := Join(Normal(Split(path), !isAbsolute));
    var named := if joined == "" && !isAbsolute then "." else joined;
    (if isAbsolute then "/" else "") + named + (if named != "" && EndsInSlash(path) then "/" else "")
  }

  lemma {:induction false} JoinEnds(parts: seq<string>, above: bool)
    requires Normalized(parts, above)
    ensures Join(parts) == "" <==> parts == []
    ensures !IsAbsolute(Join(parts)) && !EndsInSlash(Join(parts))
  {
    if |parts| > 1 {
      assert Normalized(parts[1..], true);
      JoinEnds(parts[1..], true);
      var s := Join(parts[1..]);
      assert Join(parts)[|Join(parts)| - 1] == s[|s| - 1];
    }
  }

  /** What a normal list looks like written out, with a slash in front or behind. */
  lemma SplitShown(parts: seq<string>, above: bool)
    requires Normalized(parts, above)
    ensures Normal(Split(Join(parts)), above) == parts
    ensures Normal(Split(Join(parts) + "/"), above) == parts
    ensures Normal(Split("/" + Join(parts)), above) == parts
    ensures Normal(Split("/" + Join(parts) + "/"), above) == parts
  {
    var s := Join(parts);
    if parts == [] {
      assert Split(s) == [""];
      NormalBlanks([], above);
      assert [""] + [] == [""];
    } else {
      SplitJoin(parts);
    }
    NormalizedIsFixed(parts, above);
    SplitConcat(s, "");
    SplitConcat("", s);
    SplitConcat("", s + "/");
    assert s + "/" + "" == s + "/" && "" + "/" + s == "/" + s && "" + "/" + (s + "/") == "/" + s + "/";
    assert Split("") == [""];
    NormalBlanks(Split(s), above);
    NormalBlanks(Split(s) + [""], above);
    hide Join, Normal;
  }

  lemma NormalizeAbsolute(path: string)
    requires IsAbsolute(path)
    ensures Normalize(Normalize(path)) == Normalize(path)
  {
    var n := Normal(Split(path), false);
    SplitParts(path);
    NormalIsNormalized(Split(path), false);
    JoinEnds(n, false);
    SplitShown(n, false);
    var r := Normalize(path);
    assert r == "/" + Join(n) || r == "/" + Join(n) + "/";
    assert IsAbsolute(r) && Normal(Split(r), false) == n;
    assert Join(n) != "" ==> (EndsInSlash(r) <==> EndsInSlash(path));
    hide Join, Normal, Split;
  }

  lemma NormalizeRelative(path: string)
    requires !IsAbsolute(path)
    ensures Normalize(Normalize(path)) == Normalize(path)
  {
    var n := Normal(Split(path), true);
    SplitParts(path);
    NormalIsNormalized(Split(path), true);
    JoinEnds(n, true);
    SplitShown(n, true);
    var r := Normalize(path);
    if n == [] {
      DotIsNothing();
      assert r == "." || r == "./";
    } else {
      assert r == Join(n) || r == Join(n) + "/";
    }
    assert !IsAbsolute(r) && Normal(Split(r), true) == n;
    assert EndsInSlash(r) <==> EndsInSlash(path);
    hide Join, Normal, Split;
  }

  lemma DotIsNothing()
    ensures Normal(Split("."), true) == [] && Normal(Split("./"), true) == []
  {
    SplitPart(".");
    SplitConcat(".", "");
    assert "." + "/" + "" == "./";
    assert Split("") == [""];
    FoldOne([], ".", true);
    NormalBlanks(["."], true);
  }

  /** `normalize` is idempotent. */
  lemma NormalizeTwice(path: string)
    ensures Normalize(Normalize(path)) == Normalize(path)
  {
    if IsAbsolute(path) {
      NormalizeAbsolute(path);
    } else {
      NormalizeRelative(path);
    }
    hide Normalize;
  }

  // ---- resolve ----

  /** The arguments from the right until one is absolute, then the working directory; each ends in a slash. */
  function Gather(args: seq<string>, cwd: string, resolved: string): (string, bool) {
    if args == [] then
      if cwd == "" then (resolved, false) else (cwd + "/" + resolved, IsAbsolute(cwd))
    else
      var front, path := args[..|args| - 1], args[|args| - 1];
      if path == "" then Gather(front, cwd, resolved)
      else if IsAbsolute(path) then (path + "/" + resolved, true)
      else Gather(front, cwd, path + "/" + resolved)
  }

  function Resolved(args: seq<string>, cwd: string): string {
    var (path, absolute) := Gather(args, cwd, "");
    var shown := (if absolute then "/" else "") + Join(Normal(Split(path), !absolute));
    if shown == "" then "." else shown
  }

  method Resolve(args: seq<string>, cwd: string) returns (r: string)
    ensures r == Resolved(args, cwd)
  {
    var resolvedPath, resolvedAbsolute := "", false;
    var i := |args| - 1;
    assert args[..|args|] == args;
    while i >= -1 && !resolvedAbsolute
      invariant -2 <= i < |args|
      invariant if resolvedAbsolute || i == -2 then (resolvedPath, resolvedAbsolute) == Gather(args, cwd, "")
                else Gather(args[..i + 1], cwd, resolvedPath) == Gather(args, cwd, "")
      decreases i + 2
    {
      var path := if i >= 0 then args[i] else cwd;
      assert i >= 0 ==> args[..i + 1][..i] == args[..i];
      i := i - 1;
      if path == "" {
        continue;
      }
      resolvedPath := path + "/" + resolvedPath;
      resolvedAbsolute := path[0] == '/';
    }
    var parts := NormalizeArray(Split(resolvedPath), !resolvedAbsolute);
    r := (if resolvedAbsolute then "/" else "") + Join(parts);
    if r == "" {
      r := ".";
    }
  }

  lemma {:induction false} GatherAppends(args: seq<string>, cwd: string, resolved: string)
    ensures Gather(args, cwd, resolved) == (Gather(args, cwd, "").0 + resolved, Gather(args, cwd, "").1)
    decreases |args|
  {
    if args == [] {
      assert cwd + "/" + "" + resolved == cwd + "/" + resolved;
      assert "" + resolved == resolved;
    } else {
      var front, path := args[..|args| - 1], args[|args| - 1];
      GatherAppends(front, cwd, resolved);
      GatherAppends(front, cwd, path + "/" + resolved);
      GatherAppends(front, cwd, path + "/" + "");
      var g := Gather(front, cwd, "").0;
      assert g + (path + "/" + "") + resolved == g + (path + "/" + resolved);
      assert path + "/" + "" + resolved == path + "/" + resolved;
    }
  }

  lemma {:induction false} GatherEnds(args: seq<string>, cwd: string, resolved: string)
    requires IsAbsolute(cwd) && (resolved == "" || EndsInSlash(resolved))
    ensures Gather(args, cwd, resolved).1 && EndsInSlash(Gather(args, cwd, resolved).0)
    decreases |args|
  {
    if args != [] {
      var front, path := args[..|args| - 1], args[|args| - 1];
      if path == "" {
        GatherEnds(front, cwd, resolved);
      } else if !IsAbsolute(path) {
        GatherEnds(front, cwd, path + "/" + resolved);
      }
    }
  }

  /** The directory that the arguments lead to. */
  function Target(args: seq<string>, cwd: string): seq<string> {
    Normal(Split(Gather(args, cwd, "").0), false)
  }

  lemma TargetShown(args: seq<string>, cwd: string)
    requires IsAbsolute(cwd)
    ensures Normalized(Target(args, cwd), false) && Resolved(args, cwd) == "/" + Join(Target(args, cwd))
  {
    GatherEnds(args, cwd, "");
    SplitParts(Gather(args, cwd, "").0);
    NormalIsNormalized(Split(Gather(args, cwd, "").0), false);
    hide Gather, Normal, Split, Join, Normalized;
  }

  /** A further argument that is not absolute leads on from where the others lead. */
  lemma TargetFollows(args: seq<string>, cwd: string, path: string)
    requires IsAbsolute(cwd) && path != "" && !IsAbsolute(path)
    ensures Target(args + [path], cwd) == Fold(Target(args, cwd), Split(path), false)
  {
    var g := Gather(args, cwd, "").0;
    GatherEnds(args, cwd, "");
    GatherAppends(args, cwd, path + "/" + "");
    assert (args + [path])[..|args|] == args;
    assert Gather(args + [path], cwd, "").0 == g + (path + "/");
    var h := g[..|g| - 1];
    hide Gather, Fold, Split;
    assert g == h + "/" + "" && g + (path + "/") == h + "/" + (path + "/" + "");
    SplitConcat(h, "");
    SplitConcat(h, path + "/" + "");
    SplitConcat(path, "");
    assert Split("") == [""] by { SplitPart(""); }
    NormalBlanks(Split(h), false);
    NormalBlanks(Split(h) + Split(path), false);
    assert Split(h) + (Split(path) + [""]) == Split(h) + Split(path) + [""];
    FoldConcat([], Split(h), Split(path), false);
  }

  lemma {:induction false} GatherStops(before: seq<string>, p: string, rest: seq<string>, cwd: string, resolved: string)
    requires IsAbsolute(p)
    ensures Gather(before + [p] + rest, cwd, resolved) == Gather([p] + rest, "", resolved)
    decreases |rest|
  {
    var long, short := before + [p] + rest, [p] + rest;
    if rest == [] {
      assert long[|long| - 1] == p && short[0] == p;
    } else {
      var front, last := rest[..|rest| - 1], rest[|rest| - 1];
      assert long[..|long| - 1] == before + [p] + front && short[..|short| - 1] == [p] + front;
      assert long[|long| - 1] == last && short[|short| - 1] == last;
      GatherStops(before, p, front, cwd, resolved);
      GatherStops(before, p, front, cwd, last + "/" + resolved);
    }
  }

  /** An absolute argument makes a new start: neither what comes before it nor the working directory counts. */
  lemma AbsoluteRestarts(before: seq<string>, p: string, rest: seq<string>, cwd: string)
    requires IsAbsolute(p)
    ensures Resolved(before + [p] + rest, cwd) == Resolved([p] + rest, "")
  {
    GatherStops(before, p, rest, cwd, "");
    hide Gather, Join, Normal, Split;
  }

  /** An absolute path alone leads to its own segments, whatever the working directory. */
  lemma AbsoluteAlone(p: string, cwd: string)
    requires IsAbsolute(p)
    ensures Resolved([p], cwd) == "/" + Join(Normal(Split(p), false))
  {
    assert [p][..0] == [];
    assert Gather([p], cwd, "") == (p + "/" + "", true);
    hide Gather;
    SplitConcat(p, "");
    assert Split("") == [""];
    NormalBlanks(Split(p), false);
    hide Normal, Split, Join;
  }

  /** Without a working directory a relative path leads to its own segments too, and nowhere is a dot. */
  lemma RelativeAlone(p: string)
    requires p != "" && !IsAbsolute(p)
    ensures var shown := Join(Normal(Split(p), true)); Resolved([p], "") == if shown == "" then "." else shown
  {
    assert [p][..0] == [];
    assert Gather([p], "", "") == (p + "/" + "", false);
    hide Gather;
    SplitConcat(p, "");
    assert Split("") == [""];
    NormalBlanks(Split(p), true);
    hide Normal, Split, Join;
  }

  lemma {:induction false} GatherSkips(before: seq<string>, rest: seq<string>, cwd: string, resolved: string)
    ensures Gather(before + [""] + rest, cwd, resolved) == Gather(before + rest, cwd, resolved)
    decreases |rest|
  {
    var long, short := before + [""] + rest, before + rest;
    if rest == [] {
      assert long[..|long| - 1] == before == short;
    } else {
      var front, last := rest[..|rest| - 1], rest[|rest| - 1];
      assert long[..|long| - 1] == before + [""] + front && short[..|short| - 1] == before + front;
      GatherSkips(before, front, cwd, resolved);
      GatherSkips(before, front, cwd, last + "/" + resolved);
    }
  }

  /** An empty argument changes nothing. */
  lemma EmptyArgument(before: seq<string>, rest: seq<string>, cwd: string)
    ensures Resolved(before + [""] + rest, cwd) == Resolved(before + rest, cwd)
  {
    GatherSkips(before, rest, cwd, "");
    hide Gather, Join, Normal, Split;
  }

  lemma {:induction false} GatherStarts(args: seq<string>, cwd: string, resolved: string)
    ensures Gather(args, cwd, resolved) == Gather([cwd] + args, "", resolved)
    decreases |args|
  {
    var more := [cwd] + args;
    if args == [] {
      assert more[..0] == [] && more[0] == cwd;
    } else {
      var front, last := args[..|args| - 1], args[|args| - 1];
      assert more[..|more| - 1] == [cwd] + front && more[|more| - 1] == last;
      GatherStarts(front, cwd, resolved);
      GatherStarts(front, cwd, last + "/" + resolved);
    }
  }

  /** The working directory counts as a first argument. */
  lemma WorkingDirectoryFirst(args: seq<string>, cwd: string)
    ensures Resolved(args, cwd) == Resolved([cwd] + args, "")
  {
    GatherStarts(args, cwd, "");
    hide Gather, Join, Normal, Split;
  }

  // ---- relative ----

  function Common(a: seq<string>, b: seq<string>): (k: nat)
    ensures k <= |a| && k <= |b| && a[..k] == b[..k]
    ensures k < |a| && k < |b| ==> a[k] != b[k]
  {
    if a == [] || b == [] || a[0] != b[0] then 0 else 1 + Common(a[1..], b[1..])
  }

  function TrimLeft(arr: seq<string>): seq<string> {
    if arr == [] || arr[0] != "" then arr else TrimLeft(arr[1..])
  }

  function TrimRight(arr: seq<string>): seq<string> {
    if arr == [] || arr[|arr| - 1] != "" then arr else TrimRight(arr[..|arr| - 1])
  }

  function Between(from: seq<string>, to: seq<string>): seq<string> {
    var k := Common(from, to);
    Ups(|from| - k) + to[k..]
  }

  /** `resolve(path).substr(1)`, split and trimmed. */
  function RelativeParts(path: string, cwd: string): seq<string> {
    var s := Resolved([path], cwd);
    TrimRight(TrimLeft(Split(if s == "" then "" else s[1..])))
  }

  function RelativeTo(from: string, to: string, cwd: string): string {
    Join(Between(RelativeParts(from, cwd), RelativeParts(to, cwd)))
  }

  lemma TrimRightOnce(arr: seq<string>, start: nat, end: nat)
    requires start <= end < |arr| && arr[end] == ""
    ensures TrimRight(arr[start..end + 1]) == TrimRight(arr[start..end])
  {
    assert arr[start..end + 1][..end - start] == arr[start..end];
  }

  method Trim(arr: seq<string>) returns (r: seq<string>)
    ensures r == TrimRight(TrimLeft(arr))
  {
    hide TrimRight, TrimLeft;
    var start := TrimStart(arr);
    r := TrimEnd(arr, start);
  }

  /** The first loop of `trim`. */
  method TrimStart(arr: seq<string>) returns (start: nat)
    ensures start <= |arr| && arr[start..] == TrimLeft(arr) && (start < |arr| ==> arr[start] != "")
  {
    start := 0;
    assert arr[0..] == arr;
    while start < |arr| && arr[start] == ""
      invariant start <= |arr| && TrimLeft(arr[start..]) == TrimLeft(arr)
    {
      assert arr[start..][1..] == arr[start + 1..];
      start := start + 1;
    }
  }

  /** The second loop of `trim`, which does not look at where the first one stopped. */
  method TrimEnd(arr: seq<string>, start: nat) returns (r: seq<string>)
    requires start <= |arr| && (start < |arr| ==> arr[start] != "")
    ensures r == TrimRight(arr[start..])
  {
    var end := |arr| - 1;
    assert arr[start..end + 1] == arr[start..];
    assert TrimRight([]) == [];
    ghost var whole := TrimRight(arr[start..]);
    while end >= 0 && arr[end] == ""
      invariant -1 <= end < |arr| && (start < |arr| ==> start <= end && TrimRight(arr[start..end + 1]) == whole)
      decreases end + 1
    {
      if start < |arr| {
        TrimRightOnce(arr, start, end);
      }
      end := end - 1;
    }
    if start > end {
      return [];
    }
    return arr[start..end + 1];
  }

  method Relative(from: string, to: string, cwd: string) returns (r: string)
    ensures r == RelativeTo(from, to, cwd)
  {
    hide Resolved, Split, TrimLeft, TrimRight, Join;
    var fromPath := Resolve([from], cwd);
    var toPath := Resolve([to], cwd);
    var fromParts := Trim(Split(if fromPath == "" then "" else fromPath[1..]));
    var toParts := Trim(Split(if toPath == "" then "" else toPath[1..]));
    var length := if |fromParts| <= |toParts| then |fromParts| else |toParts|;
    var samePartsLength := length;
    var i := 0;
    while i < length
      invariant 0 <= i <= length && fromParts[..i] == toParts[..i] && samePartsLength == length
    {
      if fromParts[i] != toParts[i] {
        samePartsLength := i;
        break;
      }
      i := i + 1;
    }
    CommonIs(fromParts, toParts, samePartsLength);
    var outputParts: seq<string> := [];
    for j := samePartsLength to |fromParts|
      invariant outputParts == Ups(j - samePartsLength)
    {
      UpsMore(j - samePartsLength);
      outputParts := outputParts + [UP];
    }
    r := Join(outputParts + toParts[samePartsLength..]);
  }

  lemma {:induction false} CommonIs(a: seq<string>, b: seq<string>, k: nat)
    requires k <= |a| && k <= |b| && a[..k] == b[..k] && (k < |a| && k < |b| ==> a[k] != b[k])
    ensures Common(a, b) == k
  {
    if k > 0 {
      assert a[0] == a[..k][0] == b[..k][0] == b[0];
      assert a[1..][..k - 1] == a[..k][1..] && b[1..][..k - 1] == b[..k][1..];
      CommonIs(a[1..], b[1..], k - 1);
    }
  }

  /** The parts that `relative` compares are the directory the path leads to. */
  lemma PartsAreTarget(path: string, cwd: string)
    requires IsAbsolute(cwd)
    ensures RelativeParts(path, cwd) == Target([path], cwd) && Normalized(Target([path], cwd), false)
  {
    TargetShown([path], cwd);
    var t := Target([path], cwd);
    assert Resolved([path], cwd)[1..] == Join(t);
    hide Resolved, Target;
    if t == [] {
      assert Split("") == [""];
      assert [""][1..] == [];
    } else {
      SplitJoin(t);
    }
  }

  lemma {:induction false} FoldUpsDown(res: seq<string>, n: nat, tail: seq<string>)
    requires n <= |res| && Normalized(res, false)
    ensures Fold(res, Ups(n) + tail, false) == Fold(res[..|res| - n], tail, false)
    decreases n
  {
    if n == 0 {
      assert Ups(0) + tail == tail && res[..|res|] == res;
    } else {
      assert (Ups(n) + tail)[0] == UP && (Ups(n) + tail)[1..] == Ups(n - 1) + tail;
      var less := res[..|res| - 1];
      assert Step(res, UP, false) == less;
      FoldUpsDown(less, n - 1, tail);
      assert less[..|less| - (n - 1)] == res[..|res| - n];
    }
  }

  lemma {:induction false} FoldNames(res: seq<string>, names: seq<string>)
    requires Normalized(names, false)
    ensures Fold(res, names, false) == res + names
    decreases |names|
  {
    if names != [] {
      FoldNames(res + [names[0]], names[1..]);
    }
  }

  lemma BetweenFolds(from: seq<string>, to: seq<string>)
    requires Normalized(from, false) && Normalized(to, false)
    ensures Fold(from, Between(from, to), false) == to
  {
    hide Fold, Normalized, Ups, Common;
    var k := Common(from, to);
    TailNormalized(to, k);
    FoldUpsDown(from, |from| - k, to[k..]);
    FoldNames(from[..k], to[k..]);
    assert to[..k] + to[k..] == to;
  }

  lemma TailNormalized(parts: seq<string>, k: nat)
    requires Normalized(parts, false) && k <= |parts|
    ensures Normalized(parts[k..], false)
  {
    hide NoSlash;
  }

  lemma BetweenNames(from: seq<string>, to: seq<string>)
    requires Normalized(from, false) && Normalized(to, false)
    ensures Between(from, to) == [] ==> from == to
    ensures Between(from, to) != [] ==> AllNoSlash(Between(from, to)) && Between(from, to)[0] != ""
  {
    var k := Common(from, to);
    assert |Between(from, to)| == (|from| - k) + (|to| - k);
    if Between(from, to) == [] {
      assert from == from[..k] && to == to[..k];
    }
    assert NoSlash(UP);
    hide NoSlash, Common;
  }

  /** From `from`, the relative path leads to `to`: for all strings, below an absolute working directory. */
  lemma ResolveRelative(from: string, to: string, cwd: string)
    requires IsAbsolute(cwd)
    ensures Resolved([from, RelativeTo(from, to, cwd)], cwd) == Resolved([to], cwd)
  {
    PartsAreTarget(from, cwd);
    PartsAreTarget(to, cwd);
    var f, t := Target([from], cwd), Target([to], cwd);
    var out := Between(f, t);
    var rel := RelativeTo(from, to, cwd);
    BetweenFolds(f, t);
    BetweenNames(f, t);
    assert [from] + [rel] == [from, rel];
    if out == [] {
      assert [from, rel][..1] == [from];
      assert Gather([from, rel], cwd, "") == Gather([from], cwd, "");
    } else {
      SplitJoin(out);
      assert rel != "" && rel[0] == out[0][0];
      TargetFollows([from], cwd, rel);
    }
    assert Target([from, rel], cwd) == t;
    TargetShown([from, rel], cwd);
    TargetShown([to], cwd);
    hide Target, Resolved;
  }

  // ---- no path is shorter ----

  lemma {:induction false} CommonMost(a: seq<string>, b: seq<string>, k: nat)
    requires k <= |a| && k <= |b| && a[..k] == b[..k]
    ensures k <= Common(a, b)
  {
    if k > 0 {
      assert a[0] == a[..k][0] && b[0] == b[..k][0];
      assert a[1..][..k - 1] == a[..k][1..] && b[1..][..k - 1] == b[..k][1..];
      CommonMost(a[1..], b[1..], k - 1);
    }
  }

  /** How many segments have to change. */
  function Apart(a: seq<string>, b: seq<string>): int {
    |a| + |b| - 2 * Common(a, b)
  }

  lemma ApartMore(a: seq<string>, p: string, b: seq<string>)
    ensures Apart(a + [p], b) >= Apart(a, b) - 1
  {
    var k := Common(a + [p], b);
    if k > 0 {
      assert a[..k - 1] == (a + [p])[..k][..k - 1] == b[..k][..k - 1] == b[..k - 1];
      CommonMost(a, b, k - 1);
    }
    hide Common;
  }

  lemma ApartLess(a: seq<string>, b: seq<string>)
    requires a != []
    ensures Apart(a[..|a| - 1], b) >= Apart(a, b) - 1
  {
    var short := a[..|a| - 1];
    var k := Common(short, b);
    assert a[..k] == short[..k];
    CommonMost(a, b, k);
    hide Common;
  }

  /** Every segment brings the directory at most one segment closer. */
  lemma {:induction false} ApartFolds(a: seq<string>, parts: seq<string>, b: seq<string>)
    ensures Apart(Fold(a, parts, false), b) >= Apart(a, b) - |parts|
    decreases |parts|
  {
    hide Apart;
    if parts != [] {
      ApartMore(a, parts[0], b);
      if a != [] {
        ApartLess(a, b);
      }
      ApartFolds(Step(a, parts[0], false), parts[1..], b);
    }
  }

  lemma {:induction false} CommonSelf(a: seq<string>)
    ensures Common(a, a) == |a|
  {
    if a != [] {
      CommonSelf(a[1..]);
    }
  }

  /** `relative` gives a shortest way: no list of segments that leads from one directory to the other has fewer. */
  lemma BetweenIsShortest(from: seq<string>, to: seq<string>, parts: seq<string>)
    requires Fold(from, parts, false) == to
    ensures |Between(from, to)| <= |parts|
  {
    ApartFolds(from, parts, to);
    CommonSelf(to);
    assert |Between(from, to)| == Apart(from, to);
    hide Common, Fold, Ups;
  }

  /** No relative path that leads from `from` to `to` has fewer segments than the one that `relative` gives. */
  lemma RelativeIsShortest(from: string, to: string, cwd: string, path: string)
    requires IsAbsolute(cwd) && path != "" && !IsAbsolute(path)
    requires Resolved([from, path], cwd) == Resolved([to], cwd)
    ensures |Split(RelativeTo(from, to, cwd))| <= |Split(path)|
  {
    PartsAreTarget(from, cwd);
    PartsAreTarget(to, cwd);
    var f, t := Target([from], cwd), Target([to], cwd);
    assert [from] + [path] == [from, path];
    TargetFollows([from], cwd, path);
    TargetShown([from, path], cwd);
    TargetShown([to], cwd);
    SameShown(Target([from, path], cwd), t);
    BetweenIsShortest(f, t, Split(path));
    BetweenNames(f, t);
    if Between(f, t) != [] {
      SplitJoin(Between(f, t));
    }
    assert Split("") == [""];
    hide Resolved, Target, Fold, Between, Split;
  }

  lemma SameShown(a: seq<string>, b: seq<string>)
    requires Normalized(a, false) && Normalized(b, false) && "/" + Join(a) == "/" + Join(b)
    ensures a == b
  {
    assert ("/" + Join(a))[1..] == Join(a) && ("/" + Join(b))[1..] == Join(b);
    SplitShown(a, false);
    SplitShown(b, false);
    hide Join, Split, Normal, Normalized;
  }

  // ---- what normalize keeps ----

  /** The segments of a path without the blanks at both ends. */
  function Shown(path: string): seq<string> {
    TrimRight(TrimLeft(Split(path)))
  }

  lemma TrimBlanks(parts: seq<string>)
    requires parts != [] ==> parts[0] != "" && parts[|parts| - 1] != ""
    ensures TrimRight(TrimLeft(parts)) == parts && TrimRight(TrimLeft(parts + [""])) == parts
    ensures TrimRight(TrimLeft([""] + parts)) == parts && TrimRight(TrimLeft([""] + parts + [""])) == parts
  {
    assert ([""] + parts)[1..] == parts && ([""] + parts + [""])[1..] == parts + [""];
    assert (parts + [""])[..|parts|] == parts;
    assert [""][1..] == [];
  }

  lemma ShownForms(n: seq<string>, above: bool)
    requires Normalized(n, above)
    ensures var s := Join(n); Shown(s) == n && Shown(s + "/") == n && Shown("/" + s) == n && Shown("/" + s + "/") == n
  {
    var s := Join(n);
    SplitConcat(s, "");
    SplitConcat("", s);
    SplitConcat("", s + "/");
    assert s + "/" + "" == s + "/" && "" + "/" + s == "/" + s && "" + "/" + (s + "/") == "/" + s + "/";
    assert Split("") == [""];
    if n == [] {
      TrimBlanks([]);
      assert [""] + [""] + [""] == ["", "", ""];
      TrimThree();
    } else {
      SplitJoin(n);
      TrimBlanks(n);
      assert [""] + (n + [""]) == [""] + n + [""];
    }
    hide Join, Split, TrimLeft, TrimRight;
  }

  lemma TrimThree()
    ensures TrimRight(TrimLeft([""])) == [] && TrimRight(TrimLeft(["", ""])) == [] && TrimRight(TrimLeft(["", "", ""])) == []
  {
    assert [""][1..] == [] && ["", ""][1..] == [""] && ["", "", ""][1..] == ["", ""];
  }

  ghost predicate Means(path: string, r: string, above: bool) {
    && IsAbsolute(r) == IsAbsolute(path) && Normal(Split(r), above) == Normal(Split(path), above)
    && (EndsInSlash(r) <==> EndsInSlash(path) || r == "/")
    && (r == "." || r == "./" || Shown(r) == Normal(Split(path), above))
  }

  lemma AbsoluteMeans(path: string)
    requires IsAbsolute(path)
    ensures Means(path, Normalize(path), false)
  {
    hide Join, Normal, Split, Shown;
    var n := Normal(Split(path), false);
    SplitParts(path);
    NormalIsNormalized(Split(path), false);
    JoinEnds(n, false);
    SplitShown(n, false);
    ShownForms(n, false);
    var r := Normalize(path);
    assert r == "/" + Join(n) || r == "/" + Join(n) + "/";
    assert Join(n) == "" ==> r == "/";
  }

  lemma RelativeMeans(path: string)
    requires !IsAbsolute(path)
    ensures Means(path, Normalize(path), true)
  {
    hide Join, Normal, Split, Shown;
    var n := Normal(Split(path), true);
    SplitParts(path);
    NormalIsNormalized(Split(path), true);
    JoinEnds(n, true);
    SplitShown(n, true);
    ShownForms(n, true);
    DotIsNothing();
    var r := Normalize(path);
    if Join(n) == "" {
      assert r == "." || r == "./";
    } else {
      assert r == Join(n) || r == Join(n) + "/";
    }
  }

  /** `normalize` gives a path that is absolute if the given one was, leads to the same place, ends in a slash if that did
      or it is the root, and is written without blanks and dots, unless nothing else is left of it. */
  lemma NormalizeMeans(path: string)
    ensures var r, above := Normalize(path), !IsAbsolute(path);
            && IsAbsolute(r) == IsAbsolute(path) && Normal(Split(r), above) == Normal(Split(path), above)
            && (EndsInSlash(r) <==> EndsInSlash(path) || r == "/")
            && (r == "." || r == "./" || Shown(r) == Normal(Split(path), above))
  {
    hide Normalize, Normal, Split, Shown;
    if IsAbsolute(path) {
      AbsoluteMeans(path);
    } else {
      RelativeMeans(path);
    }
  }
}
