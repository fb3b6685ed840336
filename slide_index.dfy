/** Circular slide indices shared by the hero slider and the gallery.
    Both components move over `n` images (n >= 1) with the same two updaters:
    "next" sends the last slide to the first and "previous" sends the first
    slide to the last. */
module SlideIndex {

  /** The index "next" produces: `i === n - 1 ? 0 : i + 1`. */
  function Succ(i: nat, n: nat): (r: nat)
    requires i < n
    ensures r < n
    ensures r == (i + 1) % n
  {
    if i == n - 1 then 0 else i + 1
  }

  /** The index "previous" produces: `i === 0 ? n - 1 : i - 1`. */
  function Pred(i: nat, n: nat): (r: nat)
    requires i < n
    ensures r < n
    ensures r == (i - 1 + n) % n
  {
    if i == 0 then ModOfMultiplePlus(1, n, n - 1); n - 1
    else ModOfMultiplePlus(1, n, i - 1); i - 1
  }

  /** Going back undoes going forward. */
  lemma PredUndoesSucc(i: nat, n: nat)
    requires i < n
    ensures Pred(Succ(i, n), n) == i
  {
  }

  /** Going forward undoes going back. */
  lemma SuccUndoesPred(i: nat, n: nat)
    requires i < n
    ensures Succ(Pred(i, n), n) == i
  {
  }

  /** The index reached from `i` after `k` consecutive "next" steps. */
  function Advanced(i: nat, k: nat, n: nat): (r: nat)
    requires i < n
    ensures r < n
  {
    if k == 0 then i else Succ(Advanced(i, k - 1, n), n)
  }

  /** Reducing a number modulo `n` before adding one does not change the
      result modulo `n`. */
  lemma ModAddOne(a: nat, n: nat)
    requires n >= 1
    ensures (a % n + 1) % n == (a + 1) % n
  {
    var q, r := a / n, a % n;
    assert a == q * n + r;
    if r + 1 < n {
      assert a + 1 == q * n + (r + 1);
      ModOfMultiplePlus(q, n, r + 1);
    } else {
      assert a + 1 == (q + 1) * n;
      ModOfMultiplePlus(q + 1, n, 0);
    }
  }

  /** One "next" step from `a mod n` lands on `(a + 1) mod n`. */
  lemma SuccOfModular(a: nat, n: nat)
    requires n >= 1
    ensures Succ(a % n, n) == (a + 1) % n
  {
    ModAddOne(a, n);
  }

  /** `q * n + s` leaves remainder `s` when `s` is a valid remainder. */
  lemma ModOfMultiplePlus(q: nat, n: nat, s: nat)
    requires s < n
    ensures (q * n + s) % n == s
  {
    var x := q * n + s;
    var q', r' := x / n, x % n;
    assert x == q' * n + r';
    assert (q - q') * n == r' - s;
    if q > q' {
      MulAtLeast(q - q', n);
      assert false;
    } else if q < q' {
      MulAtLeast(q' - q, n);
      assert false;
    }
  }

  /** A positive multiple of `n` is at least `n`. */
  lemma MulAtLeast(d: int, n: nat)
    requires d >= 1
    ensures d * n >= n
  {
  }

  /** After `k` "next" steps from `i` the index is `(i + k) mod n`; in
      particular `k` steps from the first slide land on `k mod n`. */
  lemma {:induction false} AdvancedIsModular(i: nat, k: nat, n: nat)
    requires i < n
    ensures Advanced(i, k, n) == (i + k) % n
  {
    if k == 0 {
    } else {
      AdvancedIsModular(i, k - 1, n);
      SuccOfModular(i + k - 1, n);
    }
  }
}
