/** Picking the elements of a list that meet a condition, and what that means position by position. */
module Selection {

  function Pick<T>(s: seq<T>, ok: T -> bool): seq<T> {
    if s == [] then []
    else
      var init, last := s[..|s| - 1], s[|s| - 1];
      if ok(last) then Pick(init, ok) + [last] else Pick(init, ok)
  }

  /** Ascending positions, exactly those of the elements that meet the condition. */
  ghost predicate Positions<T>(s: seq<T>, ok: T -> bool, at: seq<nat>) {
    && (forall i, j | 0 <= i < j < |at| :: at[i] < at[j])
    && (forall i | 0 <= i < |at| :: at[i] < |s| && ok(s[at[i]]))
    && (forall k: nat | k < |s| && ok(s[k]) :: k in at)
  }

  /** What Pick returns: the elements at those positions, and nothing else. */
  lemma {:induction false} PickPositions<T>(s: seq<T>, ok: T -> bool) returns (at: seq<nat>)
    ensures Positions(s, ok, at) && |Pick(s, ok)| == |at|
    ensures forall i | 0 <= i < |at| :: Pick(s, ok)[i] == s[at[i]]
  {
    at := [];
    if s != [] {
      var n := |s| - 1;
      at := PickPositions(s[..n], ok);
      if ok(s[n]) {
        at := PositionsSnoc(s, ok, at);
      } else {
        forall k: nat | k < |s| && ok(s[k]) ensures k in at {
          assert s[k] == s[..n][k];
        }
      }
    }
  }

  lemma PositionsSnoc<T>(s: seq<T>, ok: T -> bool, before: seq<nat>) returns (at: seq<nat>)
    requires s != [] && ok(s[|s| - 1]) && Positions(s[..|s| - 1], ok, before)
    ensures at == before + [|s| - 1] && Positions(s, ok, at)
  {
    var n := |s| - 1;
    at := before + [n];
    forall k: nat | k < |s| && ok(s[k]) ensures k in at {
      if k < n {
        assert s[k] == s[..n][k] && k in before;
      } else {
        assert at[|before|] == n;
      }
    }
  }

  lemma {:induction false} PickConcat<T>(a: seq<T>, b: seq<T>, ok: T -> bool)
    ensures Pick(a + b, ok) == Pick(a, ok) + Pick(b, ok)
  {
    if b == [] {
      assert a + b == a;
    } else {
      PickConcat(a, b[..|b| - 1], ok);
      assert (a + b)[..|a + b| - 1] == a + b[..|b| - 1];
    }
  }

  lemma {:induction false} PickMembers<T>(s: seq<T>, ok: T -> bool, x: T)
    ensures multiset(Pick(s, ok))[x] == if ok(x) then multiset(s)[x] else 0
  {
    if s != [] {
      var n := |s| - 1;
      PickMembers(s[..n], ok, x);
      assert s == s[..n] + [s[n]];
    }
  }

  lemma PickIn<T>(s: seq<T>, ok: T -> bool, x: T)
    ensures x in Pick(s, ok) <==> x in s && ok(x)
  {
    PickMembers(s, ok, x);
    assert x in s <==> multiset(s)[x] > 0;
    assert x in Pick(s, ok) <==> multiset(Pick(s, ok))[x] > 0;
  }
}
