/** Interval timers as the pollers see them: `setInterval` hands out a fresh
    handle, `clearInterval` retires one. Time and firing are not modelled;
    the pollers keep the handles they own in a map from a string key. */
module Timers {

  type TimerId = nat

  /** No two keys share a handle. */
  ghost predicate Injective(m: map<string, TimerId>) {
    forall a, b :: a in m && b in m && a != b ==> m[a] != m[b]
  }

  /** Every handle in `s` was handed out before the counter reached `next`. */
  ghost predicate AllBelow(s: set<TimerId>, next: nat) {
    forall t :: t in s ==> t < next
  }

  /** Deleting a key of an injective map retires exactly its handle. */
  lemma RemoveKey(m: map<string, TimerId>, k: string)
    requires Injective(m)
    ensures Injective(m - {k})
    ensures (m - {k}).Values == if k in m then m.Values - {m[k]} else m.Values
  {
    var r := m - {k};
    if k in m {
      forall t | t in m.Values - {m[k]} ensures t in r.Values {
        var j :| j in m && m[j] == t;
        assert j != k && r[j] == t;
      }
    } else {
      assert r == m;
    }
  }

  /** Storing a fresh handle under a new key adds exactly that handle. */
  lemma AddFresh(m: map<string, TimerId>, k: string, t: TimerId)
    requires Injective(m) && k !in m && t !in m.Values
    ensures Injective(m[k := t])
    ensures m[k := t].Values == m.Values + {t}
  {
    var r := m[k := t];
    forall u | u in m.Values ensures u in r.Values {
      var j :| j in m && m[j] == u;
      assert j != k && r[j] == u;
    }
    assert r[k] == t;
  }
}
