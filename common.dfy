/// Result types and small sequence facts shared by the whole model.
module Common {

  datatype Option<T> = None | Some(value: T)

  /// Every way a run of the game aborts in the source: a failed `assert!`, a
  /// panicking index or `unwrap()`, an `unimplemented!()` arm, an unsigned
  /// subtraction below zero, or a uniform draw from an empty range.
  datatype Error =
    | InsufficientArmies      // a reserve or a box cannot cover a transfer
    | TerritoryOccupied       // the territory belongs to another player
    | IllegalDecision         // a strategy's choice lies outside the list it indexes
    | IndexOutOfRange         // a vector index that does not exist
    | MissingOwner            // `unwrap()` of the owner of an unowned territory
    | Unimplemented           // a decision asked of an `Unimplemented` player
    | Underflow               // an unsigned subtraction that would go below zero
    | EmptyRange              // `Uniform::new(low, high)` with `low >= high`
    | Undecided               // the first-player tie-break ran out of dice rolls

  datatype Result<T> = Success(value: T) | Failure(error: Error)

  /// A result for operations that only change state.
  datatype Outcome = Pass | Fail(error: Error)

  function Min(a: int, b: int): int { if a <= b then a else b }

  function Max(a: int, b: int): int { if a >= b then a else b }

  /// The identity numbering 0, 1, ..., n-1.
  function Range(n: nat): (r: seq<nat>)
    ensures |r| == n && forall i | 0 <= i < n :: r[i] == i
  {
    seq(n, i => i)
  }

  ghost predicate Distinct<T>(s: seq<T>) {
    forall i, j | 0 <= i < j < |s| :: s[i] != s[j]
  }

  /// The last position of `s` that holds the same item as position `i`: the
  /// number an id-numbering loop leaves on an item listed more than once.
  function LastIndex<T(==)>(s: seq<T>, i: nat): (j: nat)
    requires i < |s|
    ensures i <= j < |s| && s[j] == s[i]
    ensures forall k | j < k < |s| :: s[k] != s[i]
    decreases |s|
  {
    if s[|s| - 1] == s[i] then |s| - 1 else LastIndex(s[..|s| - 1], i)
  }

  /// Extending a prefix by one item moves the last position of every copy of
  /// that item to the new end and leaves the others where they were.
  lemma LastIndexExtend<T>(s: seq<T>, k: nat)
    requires k < |s|
    ensures LastIndex(s[..k + 1], k) == k
    ensures forall i | 0 <= i < k :: LastIndex(s[..k + 1], i) == if s[k] == s[i] then k else LastIndex(s[..k], i)
  {
    var t := s[..k + 1];
    forall i | 0 <= i < k && s[k] != s[i]
      ensures LastIndex(t, i) == LastIndex(s[..k], i)
    {
      var j := LastIndex(s[..k], i);
      var j' := LastIndex(t, i);
      assert t[j] == s[i];
      assert j' < k;
      assert s[..k][j'] == s[i];
    }
  }

  /// On a list without repetitions the last position of an item is its only one.
  lemma LastIndexOfDistinct<T>(s: seq<T>, i: nat)
    requires Distinct(s) && i < |s|
    ensures LastIndex(s, i) == i
  {
  }

  /// `s` with position `k` taken out, as `Vec::remove` does.
  function RemoveAt<T>(s: seq<T>, k: nat): (r: seq<T>)
    requires k < |s|
    ensures |r| == |s| - 1
    ensures forall j | 0 <= j < k :: r[j] == s[j]
    ensures forall j | k <= j < |r| :: r[j] == s[j + 1]
  {
    s[..k] + s[k + 1..]
  }
}
