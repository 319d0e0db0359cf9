/** What it means to drop some elements of a list and keep the others. */
module Selection {

  ghost predicate Has(at: seq<nat>, k: nat) {
    exists i: nat | i < |at| :: at[i] == k
  }

  /** r is what s holds at the places `at`, which rise. */
  ghost predicate Picks<T>(r: seq<T>, s: seq<T>, at: seq<nat>) {
    && |at| == |r|
    && (forall i: nat | i < |at| :: at[i] < |s| && r[i] == s[at[i]])
    && (forall i: nat, j: nat | i < j < |at| :: at[i] < at[j])
  }

  /** The places are exactly those of the elements to be kept. */
  ghost predicate Marks<T>(at: seq<nat>, s: seq<T>, keep: T -> bool) {
    forall k: nat | k < |s| :: Has(at, k) <==> keep(s[k])
  }

  /** r is s without the elements that are not to be kept: none of the others is lost, repeated or moved. */
  ghost predicate KeptOf<T>(r: seq<T>, s: seq<T>, keep: T -> bool) {
    exists at: seq<nat> :: Picks(r, s, at) && Marks(at, s, keep)
  }

  lemma KeptNone<T>(keep: T -> bool)
    ensures KeptOf([], [], keep)
  {
    assert Picks<T>([], [], []) && Marks([], [], keep);
  }

  lemma HasMore(at: seq<nat>, n: nat, k: nat)
    ensures Has(at + [n], k) <==> k == n || Has(at, k)
  {
    if k == n {
      assert (at + [n])[|at|] == k;
    }
    if i: nat :| i < |at| && at[i] == k {
      assert (at + [n])[i] == k;
    }
  }

  lemma PicksMore<T>(r: seq<T>, s: seq<T>, x: T, at: seq<nat>)
    requires Picks(r, s, at)
    ensures Picks(r, s + [x], at) && Picks(r + [x], s + [x], at + [|s|]) && !Has(at, |s|)
  {
  }

  lemma MarksMore<T>(at: seq<nat>, s: seq<T>, x: T, keep: T -> bool)
    requires Marks(at, s, keep) && !Has(at, |s|)
    ensures Marks(if keep(x) then at + [|s|] else at, s + [x], keep)
  {
    hide Has;
    forall k: nat | k <= |s| ensures Has(if keep(x) then at + [|s|] else at, k) <==> keep((s + [x])[k]) {
      HasMore(at, |s|, k);
      assert k < |s| ==> (Has(at, k) <==> keep(s[k]));
    }
  }

  lemma KeptMore<T>(r: seq<T>, s: seq<T>, x: T, keep: T -> bool)
    requires KeptOf(r, s, keep)
    ensures KeptOf(if keep(x) then r + [x] else r, s + [x], keep)
  {
    hide Picks, Marks, Has;
    var at: seq<nat> :| Picks(r, s, at) && Marks(at, s, keep);
    PicksMore(r, s, x, at);
    MarksMore(at, s, x, keep);
  }

  lemma PicksFront<T>(r: seq<T>, s: seq<T>, at: seq<nat>)
    requires s != [] && Picks(r, s, at)
    ensures var n := |s| - 1;
            if Has(at, n) then r != [] && at[|at| - 1] == n && r[|r| - 1] == s[n] && Picks(r[..|r| - 1], s[..n], at[..|at| - 1])
            else Picks(r, s[..n], at)
  {
    var n := |s| - 1;
    if Has(at, n) {
      var i: nat :| i < |at| && at[i] == n;
      assert at[i] <= at[|at| - 1];
    } else {
      forall i: nat | i < |at| ensures at[i] < n {
        assert at[i] == n ==> Has(at, n);
      }
    }
  }

  lemma MarksFront<T>(at: seq<nat>, s: seq<T>, keep: T -> bool)
    requires s != [] && Marks(at, s, keep)
    ensures var n := |s| - 1;
            && (Has(at, n) <==> keep(s[n])) && Marks(at, s[..n], keep)
            && (at != [] && at[|at| - 1] == n ==> Marks(at[..|at| - 1], s[..n], keep))
  {
    hide Has;
    var n := |s| - 1;
    if at != [] && at[|at| - 1] == n {
      assert at == at[..|at| - 1] + [n];
      forall k: nat | k < n ensures Has(at[..|at| - 1], k) <==> keep(s[..n][k]) {
        HasMore(at[..|at| - 1], n, k);
        assert Has(at, k) <==> keep(s[k]);
      }
    }
  }

  /** The last element of s is the last one kept, or not kept at all. */
  lemma KeptFront<T>(r: seq<T>, s: seq<T>, keep: T -> bool)
    requires s != [] && KeptOf(r, s, keep)
    ensures var n := |s| - 1;
            if keep(s[n]) then r != [] && r[|r| - 1] == s[n] && KeptOf(r[..|r| - 1], s[..n], keep) else KeptOf(r, s[..n], keep)
  {
    var at: seq<nat> :| Picks(r, s, at) && Marks(at, s, keep);
    assert |at| == |r|;
    hide Picks, Marks, Has;
    PicksFront(r, s, at);
    MarksFront(at, s, keep);
  }

  lemma {:induction false} KeptAppend<T>(r: seq<T>, s: seq<T>, q: seq<T>, t: seq<T>, keep: T -> bool)
    requires KeptOf(r, s, keep) && KeptOf(q, t, keep)
    ensures KeptOf(r + q, s + t, keep)
    decreases |t|
  {
    hide KeptOf;
    if t == [] {
      KeptEmpty(q, keep);
      assert r + q == r && s + t == s;
    } else {
      var n := |t| - 1;
      KeptFront(q, t, keep);
      var q' := if keep(t[n]) then q[..|q| - 1] else q;
      KeptAppend(r, s, q', t[..n], keep);
      KeptMore(r + q', s + t[..n], t[n], keep);
      assert s + t[..n] + [t[n]] == s + t;
      assert keep(t[n]) ==> r + q' + [t[n]] == r + q;
    }
  }

  /** Selecting from the front. */
  lemma KeptCons<T>(r: seq<T>, s: seq<T>, x: T, keep: T -> bool)
    requires KeptOf(r, s, keep)
    ensures KeptOf(if keep(x) then [x] + r else r, [x] + s, keep)
  {
    hide KeptOf;
    KeptNone(keep);
    KeptMore([], [], x, keep);
    assert [] + [x] == [x];
    KeptAppend(if keep(x) then [x] else [], [x], r, s, keep);
    assert [] + r == r;
  }

  /** There is one such list, and it holds every element to be kept as often as s does. */
  lemma {:induction false} KeptUnique<T>(r: seq<T>, q: seq<T>, s: seq<T>, keep: T -> bool)
    requires KeptOf(r, s, keep) && KeptOf(q, s, keep)
    ensures r == q
    decreases |s|
  {
    hide KeptOf;
    if s == [] {
      KeptEmpty(r, keep);
      KeptEmpty(q, keep);
    } else {
      var n := |s| - 1;
      KeptFront(r, s, keep);
      KeptFront(q, s, keep);
      if keep(s[n]) {
        KeptUnique(r[..|r| - 1], q[..|q| - 1], s[..n], keep);
        assert r == r[..|r| - 1] + [s[n]] && q == q[..|q| - 1] + [s[n]];
      } else {
        KeptUnique(r, q, s[..n], keep);
      }
    }
  }

  lemma KeptEmpty<T>(r: seq<T>, keep: T -> bool)
    requires KeptOf(r, [], keep)
    ensures r == []
  {
    var at: seq<nat> :| Picks(r, [], at);
    Inhabited(at);
    if x :| x in at {
      assert false;
    }
  }

  lemma Inhabited(at: seq<nat>)
    ensures at == [] || exists x :: x in at
  {
    if at != [] {
      assert at[0] in at;
    }
  }

  lemma {:induction false} KeptTimes<T>(r: seq<T>, s: seq<T>, keep: T -> bool, x: T)
    requires KeptOf(r, s, keep)
    ensures multiset(r)[x] == if keep(x) then multiset(s)[x] else 0
    decreases |s|
  {
    hide KeptOf;
    if s == [] {
      KeptEmpty(r, keep);
    } else {
      var n := |s| - 1;
      KeptFront(r, s, keep);
      assert s == s[..n] + [s[n]];
      if keep(s[n]) {
        assert r == r[..|r| - 1] + [s[n]];
        KeptTimes(r[..|r| - 1], s[..n], keep, x);
      } else {
        KeptTimes(r, s[..n], keep, x);
      }
    }
  }
}
