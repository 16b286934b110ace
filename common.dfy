/** Small helpers shared by every module of the model: an optional value
    (Go's nil pointer), bytes, and the two functions of Go's `strings`
    package the source relies on. */
module Common {

  /** A Go pointer or interface that may be nil. */
  datatype Option<+T> = None | Some(value: T)

  /** `time.Duration` counts nanoseconds. */
  const Millisecond: int := 1_000_000
  const Second: int := 1000 * Millisecond

  /** One octet of a Go `[]byte`. */
  newtype byte = b: int | 0 <= b < 256

  /** `pat` occurs in `s` starting at index `i`. */
  predicate OccursAt(s: string, pat: string, i: nat) {
    i + |pat| <= |s| && s[i..i + |pat|] == pat
  }

  /** The first index at or after `i` where `pat` occurs in `s`. */
  function IndexFrom(s: string, pat: string, i: nat): (r: Option<nat>)
    requires i <= |s|
    decreases |s| - i
    ensures r.Some? ==> i <= r.value && OccursAt(s, pat, r.value)
    ensures r.Some? ==> forall j :: i <= j < r.value ==> !OccursAt(s, pat, j)
    ensures r.None? ==> forall j: nat :: i <= j ==> !OccursAt(s, pat, j)
  {
    if OccursAt(s, pat, i) then Some(i)
    else if |s| <= i + |pat| then None
    else IndexFrom(s, pat, i + 1)
  }

  /** Go's `strings.Index(s, pat)`, with "not found" as None. */
  function Index(s: string, pat: string): (r: Option<nat>)
    ensures r.Some? ==> OccursAt(s, pat, r.value)
    ensures r.Some? ==> forall j :: 0 <= j < r.value ==> !OccursAt(s, pat, j)
    ensures r.None? ==> forall j: nat :: !OccursAt(s, pat, j)
  {
    IndexFrom(s, pat, 0)
  }

  /** Go's `strings.Replace(s, pat, "", 1)`: the first occurrence of `pat`
      is cut out; without one, `s` is returned as it is. With `pat == ""`
      Go returns `s` unchanged, and so does this (it "cuts" the empty
      string at index 0). */
  function RemoveFirst(s: string, pat: string): string {
    match Index(s, pat)
    case None => s
    case Some(i) => s[..i] + s[i + |pat|..]
  }

  /** What `RemoveFirst` removes: exactly the leftmost occurrence. */
  lemma RemoveFirstCutsLeftmost(s: string, pat: string)
    ensures (forall j: nat :: !OccursAt(s, pat, j)) ==> RemoveFirst(s, pat) == s
    ensures forall i: nat ::
      OccursAt(s, pat, i) && (forall j :: 0 <= j < i ==> !OccursAt(s, pat, j)) ==>
        RemoveFirst(s, pat) == s[..i] + s[i + |pat|..]
  {
    match Index(s, pat)
    case None =>
    case Some(k) =>
      assert OccursAt(s, pat, k);
  }

  /** A prefix is cut back off: `RemoveFirst(pat + k, pat) == k`. */
  lemma RemoveFirstOfPrefixed(pat: string, k: string)
    ensures RemoveFirst(pat + k, pat) == k
  {
    var s := pat + k;
    assert s[0..|pat|] == pat;
    assert OccursAt(s, pat, 0);
    assert s[|pat|..] == k;
  }

  /** Concatenation regroups (proved once here, where it is cheap). */
  lemma AppendAssoc<T>(a: seq<T>, b: seq<T>, c: seq<T>)
    ensures (a + b) + c == a + (b + c)
  {
  }
}
