/**
Choosing what a transfer copies and under which grants. Paths are cleaned,
relative strings; strings are ordered character by character.
*/
module TransferSelection {
  import opened Wrappers

  // ---------- Order ----------

  predicate Before(a: string, b: string) {
    if a == "" then true
    else if b == "" then false
    else a[0] < b[0] || (a[0] == b[0] && Before(a[1..], b[1..]))
  }

  lemma {:induction false} BeforeTotal(a: string, b: string)
    ensures Before(a, b) || Before(b, a)
    ensures Before(a, b) && Before(b, a) ==> a == b
    decreases |a|
  {
    if a != "" && b != "" && a[0] == b[0] {
      BeforeTotal(a[1..], b[1..]);
      assert a == [a[0]] + a[1..] && b == [b[0]] + b[1..];
    }
  }

  lemma {:induction false} BeforeChains(a: string, b: string, c: string)
    requires Before(a, b) && Before(b, c)
    ensures Before(a, c)
    decreases |a|
  {
    if a != "" && b != "" && c != "" && a[0] == b[0] == c[0] {
      BeforeChains(a[1..], b[1..], c[1..]);
    }
  }

  predicate Sorted(s: seq<string>) {
    forall i, j | 0 <= i < j < |s| :: Before(s[i], s[j])
  }

  function Insert(s: seq<string>, x: string): (r: seq<string>)
    ensures multiset(r) == multiset(s) + multiset{x}
  {
    if s == [] then [x]
    else if Before(x, s[0]) then
      assert s == [s[0]] + s[1..];
      [x] + s
    else
      assert s == [s[0]] + s[1..];
      [s[0]] + Insert(s[1..], x)
  }

  lemma {:induction false} InsertSorts(s: seq<string>, x: string)
    requires Sorted(s)
    ensures Sorted(Insert(s, x))
    decreases |s|
  {
    if s != [] {
      if Before(x, s[0]) {
        forall j | 0 <= j < |s|
          ensures Before(x, s[j])
        {
          if j > 0 {
            BeforeChains(x, s[0], s[j]);
          }
        }
      } else {
        InsertSorts(s[1..], x);
        var rest := Insert(s[1..], x);
        BeforeTotal(x, s[0]);
        forall j | 0 <= j < |rest|
          ensures Before(s[0], rest[j])
        {
          assert rest[j] in multiset(rest);
          assert rest[j] == x || rest[j] in s[1..];
        }
      }
    }
  }

  function Sort(s: seq<string>): (r: seq<string>)
    ensures multiset(r) == multiset(s)
  {
    if s == [] then []
    else
      assert s == s[..|s| - 1] + [s[|s| - 1]];
      Insert(Sort(s[..|s| - 1]), s[|s| - 1])
  }

  lemma {:induction false} SortSorts(s: seq<string>)
    ensures Sorted(Sort(s))
    decreases |s|
  {
    if s != [] {
      SortSorts(s[..|s| - 1]);
      InsertSorts(Sort(s[..|s| - 1]), s[|s| - 1]);
    }
  }

  // ---------- Overlap ----------

  predicate Contains(outer: string, inner: string) {
    outer + "/" <= inner
  }

  predicate Clash(a: string, b: string) {
    a == b || Contains(a, b)
  }

  /** No path equals or contains another. */
  predicate Disjoint(s: seq<string>) {
    forall i, j | 0 <= i < |s| && 0 <= j < |s| && i != j :: !Clash(s[i], s[j])
  }

  predicate NeighboursClear(s: seq<string>) {
    forall i | 0 < i < |s| :: !Clash(s[i - 1], s[i])
  }

  datatype SelectionError = TooManyOrNone | BadPath | Overlapping

  /** A path that could not be normalised is None. */
  method SelectPaths(paths: seq<Option<string>>, most: nat) returns (r: Result<seq<string>, SelectionError>)
    ensures r.Ok? ==> Sorted(r.value) && NeighboursClear(r.value) && |r.value| == |paths|
    ensures r.Ok? ==> multiset(r.value) == multiset(Present(paths))
    ensures r.Ok? <==>
              && 1 <= |paths| <= most
              && (forall i | 0 <= i < |paths| :: paths[i].Some?)
              && NeighboursClear(Sort(Present(paths)))
    ensures r.Err? ==>
              r.error == if |paths| < 1 || |paths| > most then TooManyOrNone
                         else if None in paths then BadPath
                         else Overlapping
  {
    if |paths| < 1 || |paths| > most {
      return Err(TooManyOrNone);
    }
    var clean := AllPresent(paths);
    if clean.None? {
      return Err(BadPath);
    }
    var sorted := Sort(clean.value);
    SortSorts(clean.value);
    assert |multiset(sorted)| == |multiset(clean.value)|;
    var clear := ClearNeighbours(sorted);
    return if clear then Ok(sorted) else Err(Overlapping);
  }

  method AllPresent(paths: seq<Option<string>>) returns (r: Option<seq<string>>)
    ensures r.Some? <==> forall i | 0 <= i < |paths| :: paths[i].Some?
    ensures r.Some? ==> r.value == Present(paths) && |r.value| == |paths|
  {
    var clean: seq<string> := [];
    for i := 0 to |paths|
      invariant clean == Present(paths[..i]) && |clean| == i
      invariant forall k | 0 <= k < i :: paths[k].Some?
    {
      assert paths[..i + 1][..i] == paths[..i];
      if paths[i].None? {
        return None;
      }
      clean := clean + [paths[i].value];
    }
    assert paths[..|paths|] == paths;
    return Some(clean);
  }

  method ClearNeighbours(sorted: seq<string>) returns (clear: bool)
    ensures clear <==> NeighboursClear(sorted)
  {
    for i := 0 to |sorted|
      invariant forall k | 0 < k < i :: !Clash(sorted[k - 1], sorted[k])
    {
      if i > 0 && (sorted[i] == sorted[i - 1] || sorted[i - 1] + "/" <= sorted[i]) {
        assert Clash(sorted[i - 1], sorted[i]);
        return false;
      }
    }
    return true;
  }

  function Present(paths: seq<Option<string>>): seq<string> {
    if paths == [] then []
    else
      var before := Present(paths[..|paths| - 1]);
      if paths[|paths| - 1].Some? then before + [paths[|paths| - 1].value] else before
  }

  /** The longer path goes on from the shorter with a character that sorts before the separator. */
  predicate GoesOnLow(shorter: string, longer: string) {
    shorter < longer && longer[|shorter|] < '/'
  }

  /** Between a path and something inside it lie only names that start with the path. */
  lemma {:induction false} BetweenStarts(x: string, s: string, rest: string)
    requires Before(x, s) && Before(s, x + "/" + rest)
    ensures x <= s && (s == x || s[|x|] <= '/')
    decreases |x|
  {
    if x == "" {
      assert x + "/" + rest == "/" + rest;
    } else {
      assert (x + "/" + rest)[0] == x[0] && (x + "/" + rest)[1..] == x[1..] + "/" + rest;
      BetweenStarts(x[1..], s[1..], rest);
      assert x == [x[0]] + x[1..] && s == [s[0]] + s[1..];
    }
  }

  lemma {:induction false} LaterNotBefore(a: string, b: string)
    requires Before(a, b)
    ensures !Contains(b, a)
    decreases |a|
  {
    if Contains(b, a) {
      if b != "" {
        assert a[0] == (b + "/")[0] == b[0];
        assert b + "/" == [b[0]] + (b[1..] + "/");
        assert a == [a[0]] + a[1..];
        LaterNotBefore(a[1..], b[1..]);
      }
    }
  }

  /** Two paths of an accepted selection clash only if the next path after the first goes on from it low. */
  lemma ClashHidden(s: seq<string>, i: nat, j: nat)
    requires Sorted(s) && NeighboursClear(s) && i < j < |s|
    ensures !Clash(s[j], s[i])
    ensures Clash(s[i], s[j]) ==> i + 1 < j && Contains(s[i], s[j]) && GoesOnLow(s[i], s[i + 1])
  {
    LaterNotBefore(s[i], s[j]);
    assert !Clash(s[i], s[i + 1]);
    if i + 1 < j {
      assert Before(s[i], s[i + 1]) && Before(s[i + 1], s[j]);
      BeforeTotal(s[i], s[i + 1]);
      if Contains(s[i], s[j]) {
        var rest := s[j][|s[i]| + 1..];
        assert s[j] == s[i] + "/" + rest;
        BetweenStarts(s[i], s[i + 1], rest);
      }
    }
  }

  /**
  An accepted selection overlaps if and only if some path is followed by one that
  goes on from it low and, further on, by one it contains.
  */
  lemma NeighboursMissExactly(s: seq<string>)
    requires Sorted(s) && NeighboursClear(s)
    ensures Disjoint(s) <==>
              forall i, k | 0 <= i && i + 1 < k < |s| && GoesOnLow(s[i], s[i + 1]) :: !Contains(s[i], s[k])
  {
    if forall i, k | 0 <= i && i + 1 < k < |s| && GoesOnLow(s[i], s[i + 1]) :: !Contains(s[i], s[k]) {
      forall i, j | 0 <= i < j < |s|
        ensures !Clash(s[i], s[j]) && !Clash(s[j], s[i])
      {
        ClashHidden(s, i, j);
      }
    }
  }

  /**
  Before the call: if no selected path goes on low from another, whatever their
  order and characters, no path of an accepted selection equals or contains another.
  */
  lemma NeighboursSuffice(paths: seq<string>)
    requires NeighboursClear(Sort(paths))
    requires forall p, q | p in paths && q in paths :: !GoesOnLow(p, q)
    ensures Disjoint(Sort(paths)) && Disjoint(paths)
  {
    var s := Sort(paths);
    SortSorts(paths);
    forall i | 0 <= i < |s|
      ensures s[i] in paths
    {
      assert s[i] in multiset(s);
    }
    NeighboursMissExactly(s);
    SameDisjoint(s, paths);
  }

  /** Whether paths overlap does not depend on their order. */
  lemma SameDisjoint(s: seq<string>, t: seq<string>)
    requires multiset(s) == multiset(t) && Disjoint(s)
    ensures Disjoint(t)
  {
    forall i, j | 0 <= i < |t| && 0 <= j < |t| && i != j
      ensures !Clash(t[i], t[j])
    {
      if t[i] == t[j] {
        Twice(t, i, j);
        Apart(s, t[i]);
      } else {
        assert t[i] in multiset(s) && t[j] in multiset(s);
        var m :| 0 <= m < |s| && s[m] == t[i];
        var n :| 0 <= n < |s| && s[n] == t[j];
      }
    }
  }

  lemma Twice(t: seq<string>, i: nat, j: nat)
    requires i < |t| && j < |t| && i != j && t[i] == t[j]
    ensures multiset(t)[t[i]] >= 2
  {
    var lo, hi := if i < j then i else j, if i < j then j else i;
    assert t == t[..lo] + [t[lo]] + t[lo + 1..hi] + [t[hi]] + t[hi + 1..];
  }

  lemma Apart(s: seq<string>, x: string)
    requires Disjoint(s)
    ensures multiset(s)[x] <= 1
  {
    if x in s {
      var m :| 0 <= m < |s| && s[m] == x;
      assert x !in s[..m] && x !in s[m + 1..];
      assert s == s[..m] + [x] + s[m + 1..];
    }
  }

  /** Any character before the separator lets an overlap through. */
  lemma NeighboursMissOverlap(c: char)
    requires c < '/'
    ensures var s := ["a", "a" + [c] + "b", "a/c"];
            Sorted(s) && NeighboursClear(s) && GoesOnLow(s[0], s[1]) && !Disjoint(s)
  {
    var s := ["a", "a" + [c] + "b", "a/c"];
    var middle := "a" + [c] + "b";
    assert middle[1..] == [c] + "b" && "a/c"[1..] == "/c" && "a"[1..] == "";
    assert Before("", [c] + "b") && Before([c] + "b", "/c") && Before("", "/c");
    assert Before(s[0], s[1]) && Before(s[1], s[2]) && Before(s[0], s[2]);
    assert middle[1] == c && ("a/")[1] == '/';
    assert !Contains("a", middle);
    assert |middle| == 3 && !Contains(middle, "a/c");
    assert Contains(s[0], s[2]);
    assert s[0] < s[1] && s[1][1] < '/';
  }

  // ---------- Grants ----------

  /** The path as seen from the root of a grant, if it lies there. */
  function Relative(path: string, root: string): Option<string> {
    if root == "" then Some(path)
    else if path == root then Some("")
    else if root + "/" <= path then Some(path[|root| + 1..])
    else None
  }

  function Join(root: string, relative: string): string {
    if root == "" then relative else if relative == "" then root else root + "/" + relative
  }

  /** A translated path joined to its grant's root is the path again, and only paths of the root translate. */
  lemma RelativeRoundTrip(path: string, root: string)
    requires path == "" || path[|path| - 1] != '/'
    ensures Relative(path, root).Some? <==> root == "" || path == root || Contains(root, path)
    ensures Relative(path, root).Some? ==> Join(root, Relative(path, root).value) == path
  {
  }

  datatype Direction = Send | Receive | SendReceive

  datatype Grant = Grant(
    enabled: bool,
    peer: string,
    mount: string,
    root: string,
    direction: Direction,
    canRead: bool,
    canWrite: bool,
    canDelete: bool,
    exclude: seq<string>,
    policies: set<string>)

  function Split(path: string): (parts: seq<string>)
    ensures parts != []
  {
    if path == "" then [""]
    else
      var rest := Split(path[1..]);
      if path[0] == '/' then [""] + rest else [[path[0]] + rest[0]] + rest[1..]
  }

  /** Parts put together with a separator between each two. */
  function JoinParts(parts: seq<string>): string {
    if parts == [] then "" else if |parts| == 1 then parts[0] else parts[0] + "/" + JoinParts(parts[1..])
  }

  /** The parts of a path: no separator inside any, and together they are the path. */
  lemma {:induction false} SplitExactly(path: string)
    ensures forall i | 0 <= i < |Split(path)| :: '/' !in Split(path)[i]
    ensures JoinParts(Split(path)) == path
    decreases |path|
  {
    if path != "" {
      var rest := Split(path[1..]);
      SplitExactly(path[1..]);
      assert path == [path[0]] + path[1..];
      if path[0] == '/' {
        assert Split(path)[1..] == rest;
      } else {
        assert Split(path)[0] == [path[0]] + rest[0] && Split(path)[1..] == rest[1..];
        assert rest == [rest[0]] + rest[1..];
      }
    }
  }

  predicate PlainPattern(p: string) {
    p != "" && '/' !in p && '\\' !in p && '\0' !in p
  }

  /** The matching of one pattern against one name; a malformed pattern has no answer. */
  type Matching = (string, string) -> Option<bool>

  predicate Unexcluded(g: Grant, path: string, matches: Matching) {
    && |g.exclude| <= 64
    && forall i | 0 <= i < |g.exclude| ::
         && PlainPattern(g.exclude[i]) && matches(g.exclude[i], "test").Some?
         && forall k | 0 <= k < |Split(path)| && Split(path)[k] !in {"", "."} :: matches(g.exclude[i], Split(path)[k]) == Some(false)
  }

  method GrantAllowsPath(g: Grant, path: string, matches: Matching) returns (allowed: bool)
    ensures allowed <==> Unexcluded(g, path, matches)
  {
    if |g.exclude| > 64 {
      return false;
    }
    var parts := Split(path);
    for i := 0 to |g.exclude|
      invariant forall n | 0 <= n < i ::
                  && PlainPattern(g.exclude[n]) && matches(g.exclude[n], "test").Some?
                  && forall k | 0 <= k < |parts| && parts[k] !in {"", "."} :: matches(g.exclude[n], parts[k]) == Some(false)
    {
      if !PlainPattern(g.exclude[i]) || matches(g.exclude[i], "test").None? {
        return false;
      }
      for j := 0 to |parts|
        invariant forall k | 0 <= k < j && parts[k] !in {"", "."} :: matches(g.exclude[i], parts[k]) == Some(false)
      {
        if parts[j] != "" && parts[j] != "." && matches(g.exclude[i], parts[j]) != Some(false) {
          return false;
        }
      }
    }
    return true;
  }

  predicate SourceGrantOk(g: Grant, peer: string, mount: string, paths: seq<string>, move: bool, matches: Matching) {
    && g.enabled && g.peer == peer && g.mount == mount && g.canRead && !g.direction.Receive? && (move ==> g.canDelete)
    && Unexcluded(g, g.root, matches)
    && forall i | 0 <= i < |paths| :: Relative(paths[i], g.root).Some? && Unexcluded(g, paths[i], matches)
  }

  predicate DestinationGrantOk(g: Grant, peer: string, mount: string, path: string, policy: string, matches: Matching) {
    && g.enabled && Unexcluded(g, g.root, matches) && g.peer == peer && g.canWrite && !g.direction.Send?
    && g.mount == mount && policy in g.policies
    && Relative(path, g.root).Some? && Unexcluded(g, path, matches)
  }

  /** A pattern excludes no path unless it is malformed or matches a part of it that names something. */
  lemma UnexcludedExactly(g: Grant, path: string, matches: Matching)
    ensures Unexcluded(g, path, matches) <==>
              && |g.exclude| <= 64
              && forall p | p in g.exclude ::
                   && |p| > 0 && (forall c | c in p :: c !in "/\\\0") && matches(p, "test") != None
                   && forall part | part in Split(path) && part != "" && part != "." :: matches(p, part) == Some(false)
  {
    hide Split;
  }

  /** What a source grant has to be. */
  lemma SourceGrantExactly(g: Grant, peer: string, mount: string, paths: seq<string>, move: bool, matches: Matching)
    ensures SourceGrantOk(g, peer, mount, paths, move, matches) <==>
              && g.enabled && g.peer == peer && g.mount == mount && g.canRead && g.direction in {Send, SendReceive}
              && (g.canDelete || !move)
              && Unexcluded(g, g.root, matches)
              && forall path | path in paths ::
                   (g.root == "" || path == g.root || g.root + "/" <= path) && Unexcluded(g, path, matches)
  {
    hide Unexcluded;
  }

  /** What a destination grant has to be. */
  lemma DestinationGrantExactly(g: Grant, peer: string, mount: string, path: string, policy: string, matches: Matching)
    ensures DestinationGrantOk(g, peer, mount, path, policy, matches) <==>
              && g.enabled && g.peer == peer && g.mount == mount && g.canWrite && g.direction in {Receive, SendReceive}
              && policy in g.policies
              && Unexcluded(g, g.root, matches) && Unexcluded(g, path, matches)
              && (g.root == "" || path == g.root || g.root + "/" <= path)
  {
    hide Unexcluded;
  }

  /** At most one grant is the choice. */
  lemma BestIsOne(grants: seq<Grant>, ok: Grant -> bool, a: nat, b: nat)
    requires Best(grants, ok, a) && Best(grants, ok, b)
    ensures a == b
  {
  }

  method SourceGrantAllows(g: Grant, peer: string, mount: string, paths: seq<string>, move: bool, matches: Matching)
    returns (allowed: bool)
    ensures allowed <==> SourceGrantOk(g, peer, mount, paths, move, matches)
  {
    hide Unexcluded, Relative;
    if !g.enabled || g.peer != peer || g.mount != mount || !g.canRead || g.direction.Receive? || (move && !g.canDelete) {
      return false;
    }
    var rootOk := GrantAllowsPath(g, g.root, matches);
    if !rootOk {
      return false;
    }
    for i := 0 to |paths|
      invariant forall k | 0 <= k < i :: Relative(paths[k], g.root).Some? && Unexcluded(g, paths[k], matches)
    {
      if Relative(paths[i], g.root).None? {
        return false;
      }
      var pathOk := GrantAllowsPath(g, paths[i], matches);
      if !pathOk {
        return false;
      }
    }
    return true;
  }

  /** The first of the compatible grants with the longest root. */
  predicate Best(grants: seq<Grant>, ok: Grant -> bool, at: nat) {
    && at < |grants| && ok(grants[at])
    && (forall k | 0 <= k < |grants| && ok(grants[k]) :: |grants[k].root| <= |grants[at].root|)
    && (forall k | 0 <= k < at && ok(grants[k]) :: |grants[k].root| < |grants[at].root|)
  }

  method ChooseSource(grants: seq<Grant>, peer: string, mount: string, paths: seq<string>, move: bool, matches: Matching)
    returns (r: Option<nat>)
    ensures r.None? <==> forall k | 0 <= k < |grants| :: !SourceGrantOk(grants[k], peer, mount, paths, move, matches)
    ensures r.Some? ==> Best(grants, (g: Grant) => SourceGrantOk(g, peer, mount, paths, move, matches), r.value)
  {
    hide SourceGrantOk;
    var best := -1;
    r := None;
    for i := 0 to |grants|
      invariant r.None? <==> best < 0
      invariant r.None? ==> forall k | 0 <= k < i :: !SourceGrantOk(grants[k], peer, mount, paths, move, matches)
      invariant r.Some? ==> r.value < i && best == |grants[r.value].root|
      invariant r.Some? ==> SourceGrantOk(grants[r.value], peer, mount, paths, move, matches)
      invariant forall k | 0 <= k < i && SourceGrantOk(grants[k], peer, mount, paths, move, matches) :: |grants[k].root| <= best
      invariant r.Some? ==> forall k | 0 <= k < r.value && SourceGrantOk(grants[k], peer, mount, paths, move, matches) ::
                              |grants[k].root| < best
    {
      var ok := SourceGrantAllows(grants[i], peer, mount, paths, move, matches);
      if ok && |grants[i].root| > best {
        r, best := Some(i), |grants[i].root|;
      }
    }
  }

  method ChooseDestination(grants: seq<Grant>, peer: string, mount: string, path: string, policy: string,
                           matches: Matching)
    returns (r: Option<nat>)
    ensures r.None? <==> forall k | 0 <= k < |grants| :: !DestinationGrantOk(grants[k], peer, mount, path, policy, matches)
    ensures r.Some? ==> Best(grants, (g: Grant) => DestinationGrantOk(g, peer, mount, path, policy, matches), r.value)
  {
    hide Unexcluded, Relative;
    var best := -1;
    r := None;
    for i := 0 to |grants|
      invariant r.None? <==> best < 0
      invariant r.None? ==> forall k | 0 <= k < i :: !DestinationGrantOk(grants[k], peer, mount, path, policy, matches)
      invariant r.Some? ==> r.value < i && best == |grants[r.value].root|
      invariant r.Some? ==> DestinationGrantOk(grants[r.value], peer, mount, path, policy, matches)
      invariant forall k | 0 <= k < i && DestinationGrantOk(grants[k], peer, mount, path, policy, matches) :: |grants[k].root| <= best
      invariant r.Some? ==> forall k | 0 <= k < r.value && DestinationGrantOk(grants[k], peer, mount, path, policy, matches) ::
                              |grants[k].root| < best
    {
      var g := grants[i];
      var rootOk := GrantAllowsPath(g, g.root, matches);
      var pathOk := GrantAllowsPath(g, path, matches);
      if !g.enabled || !rootOk || g.peer != peer || !g.canWrite || g.direction.Send? || g.mount != mount || policy !in g.policies
         || Relative(path, g.root).None? || !pathOk {
        continue;
      }
      if |g.root| > best {
        r, best := Some(i), |g.root|;
      }
    }
  }

  // ---------- Scopes ----------

  function Named(segments: seq<string>): seq<string> {
    if segments == [] then []
    else
      var before := Named(segments[..|segments| - 1]);
      var last := segments[|segments| - 1];
      if last == "" || last == "." then before else before + [last]
  }

  /** Named segments are kept in order, the empty ones and dots left out. */
  lemma {:induction false} NamedAdds(segments: seq<string>, segment: string)
    ensures Named(segments + [segment]) == Named(segments) + if segment in {"", "."} then [] else [segment]
    ensures Named([]) == []
  {
    var all := segments + [segment];
    assert all[..|all| - 1] == segments && all[|all| - 1] == segment;
  }

  /** A path that walks upward has no scope; any other stays inside the base. */
  method FileScope(base: seq<string>, relative: seq<string>) returns (scope: Option<seq<string>>)
    ensures scope.None? <==> ".." in relative
    ensures scope.Some? ==> scope.value == base + Named(relative) && base <= scope.value && ".." !in scope.value[|base|..]
  {
    var segments: seq<string> := [];
    for i := 0 to |relative|
      invariant segments == Named(relative[..i])
      invariant ".." !in relative[..i] && ".." !in segments
    {
      assert relative[..i + 1][..i] == relative[..i];
      var segment := relative[i];
      if segment == "" || segment == "." {
        continue;
      }
      if segment == ".." {
        return None;
      }
      segments := segments + [segment];
    }
    assert relative[..|relative|] == relative;
    return Some(base + segments);
  }
}
