/// Runs of consecutive 64 KiB slices, and the bytes in them.

module SliceRuns {
  const SLICE_SIZE: nat := 65536

  function Slices(idx: nat, n: nat): (r: set<nat>)
    ensures forall i: nat :: i in r <==> idx <= i < idx + n
    decreases n
  {
    if n == 0 then {} else {idx} + Slices(idx + 1, n - 1)
  }

  /// The bytes of `bytes` that lie in the slices of `slices`.
  ghost function Within(bytes: set<nat>, slices: set<nat>): set<nat> {
    set a | a in bytes && a / SLICE_SIZE in slices
  }

  /// Every byte of `bytes` is in a slice of `slices`.
  ghost predicate Accounts(bytes: set<nat>, slices: set<nat>) {
    forall a :: a in bytes ==> a / SLICE_SIZE in slices
  }

  /// No byte of `bytes` is in the run.
  ghost predicate RunIsZero(bytes: set<nat>, idx: nat, n: nat) {
    forall a :: a in bytes ==> a / SLICE_SIZE !in Slices(idx, n)
  }
}
