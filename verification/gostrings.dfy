/** The parts of Go's `strings` package the handlers and the metrics middleware use:
    `strings.Index` (leftmost occurrence), `strings.Contains`, `strings.Replace` with a
    count of 1, and its mirror image that replaces the last occurrence. */
module GoStrings {
  import opened Types

  /** `sub` occurs in `s` starting at position `i`. */
  predicate OccursAt(s: string, sub: string, i: int) {
    0 <= i && i + |sub| <= |s| && s[i..i + |sub|] == sub
  }

  /** The first occurrence of `sub` in `s` starts at position `i`. */
  predicate FirstOccursAt(s: string, sub: string, i: int) {
    OccursAt(s, sub, i) && forall j :: 0 <= j < i ==> !OccursAt(s, sub, j)
  }

  /** The leftmost occurrence of `sub` in `s` at or after position `k`. */
  function IndexFrom(s: string, sub: string, k: nat): (r: Option<nat>)
    ensures r.Some? ==> k <= r.value && OccursAt(s, sub, r.value)
    ensures r.Some? ==> forall j :: k <= j < r.value ==> !OccursAt(s, sub, j)
    ensures r.None? ==> forall j :: k <= j ==> !OccursAt(s, sub, j)
    decreases |s| + 1 - k
  {
    if k + |sub| > |s| then None
    else if OccursAt(s, sub, k) then Some(k)
    else IndexFrom(s, sub, k + 1)
  }

  /** `strings.Index`: the leftmost occurrence of `sub` in `s`, if any. The empty string
      occurs at position 0. */
  function Index(s: string, sub: string): (r: Option<nat>)
    ensures r.Some? ==> OccursAt(s, sub, r.value) && forall j :: 0 <= j < r.value ==> !OccursAt(s, sub, j)
    ensures r.None? ==> forall j :: !OccursAt(s, sub, j)
  {
    IndexFrom(s, sub, 0)
  }

  /** `strings.Contains`: holds exactly when `sub` occurs somewhere in `s`. */
  predicate Contains(s: string, sub: string)
    ensures Contains(s, sub) <==> exists i :: OccursAt(s, sub, i)
  {
    Index(s, sub).Some?
  }

  /** `strings.Replace(s, target, repl, 1)`: only the leftmost occurrence of `target` becomes
      `repl`, and what precedes and follows it is kept; without an occurrence `s` is
      returned unchanged. */
  function ReplaceFirst(s: string, target: string, repl: string): (r: string)
    ensures forall i :: FirstOccursAt(s, target, i) ==> r == s[..i] + repl + s[i + |target|..]
    ensures (forall j :: !OccursAt(s, target, j)) ==> r == s
  {
    match Index(s, target)
    case None => s
    case Some(i) => s[..i] + repl + s[i + |target|..]
  }

  /** The rightmost occurrence of `sub` in `s` at or before position `k`. */
  function LastIndexUpTo(s: string, sub: string, k: nat): (r: Option<nat>)
    ensures r.Some? ==> r.value <= k && OccursAt(s, sub, r.value)
    ensures r.Some? ==> forall j :: r.value < j <= k ==> !OccursAt(s, sub, j)
    ensures r.None? ==> forall j :: j <= k ==> !OccursAt(s, sub, j)
    decreases k
  {
    if OccursAt(s, sub, k) then Some(k)
    else if k == 0 then None
    else LastIndexUpTo(s, sub, k - 1)
  }

  /** `strings.LastIndex`: the rightmost occurrence of `sub` in `s`, if any. */
  function LastIndex(s: string, sub: string): (r: Option<nat>)
    ensures r.Some? ==> OccursAt(s, sub, r.value) && forall j :: r.value < j ==> !OccursAt(s, sub, j)
    ensures r.None? ==> forall j :: !OccursAt(s, sub, j)
  {
    if |sub| > |s| then None else LastIndexUpTo(s, sub, |s| - |sub|)
  }

  /** The rightmost occurrence of `target` becomes `repl`. */
  function ReplaceLast(s: string, target: string, repl: string): string {
    match LastIndex(s, target)
    case None => s
    case Some(i) => s[..i] + repl + s[i + |target|..]
  }

  /** A string that ends in `v` has its final `v` rewritten, whatever `v` is and whatever
      other copies of `v` the prefix holds. */
  lemma {:induction false} ReplaceLastSuffix(p: string, v: string, repl: string)
    ensures ReplaceLast(p + v, v, repl) == p + repl
  {
    var s := p + v;
    assert s[|p|..|p| + |v|] == v;
    assert OccursAt(s, v, |p|);
    assert s[..|p|] == p;
    assert s[|p| + |v|..] == [];
  }
}
