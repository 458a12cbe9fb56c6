/** The persisted bind map (bridge_data.rs): a dictionary from a bridge user
    name to the name it is bound to. Each change is written back to disk
    only when the number of entries changed; here the store is the map
    itself and the write-back is reported as a `saved` flag. */
module BindMaps {
  import opened Wrappers

  type BindTable = map<string, string>

  /** `add_bind` on a table: each direction is inserted only when its key is
      free, so an existing binding is never overwritten. */
  function Added(m: BindTable, u1: string, u2: string): BindTable {
    var m1 := if u1 in m then m else m[u1 := u2];
    if u2 in m1 then m1 else m1[u2 := u1]
  }

  /** Whether entry `k -> v` is one of the two directions of the pair. */
  predicate LinksPair(k: string, v: string, u1: string, u2: string) {
    (k == u1 && v == u2) || (k == u2 && v == u1)
  }

  /** `rm_bind_pair` on a table. */
  function WithoutPair(m: BindTable, u1: string, u2: string): BindTable {
    map k | k in m && !LinksPair(k, m[k], u1, u2) :: m[k]
  }

  /** `rm_user_all_bind` on a table. */
  function WithoutUser(m: BindTable, u: string): BindTable {
    map k | k in m && k != u && m[k] != u :: m[k]
  }

  /** Adding a pair keeps every existing entry, adds no key but the two
      users, and stores each direction whose key was free. */
  lemma AddedNeverOverwrites(m: BindTable, u1: string, u2: string)
    ensures forall k :: k in m ==> k in Added(m, u1, u2) && Added(m, u1, u2)[k] == m[k]
    ensures Added(m, u1, u2).Keys == m.Keys + {u1, u2}
    ensures u1 !in m ==> Added(m, u1, u2)[u1] == u2
    ensures u2 !in m && u1 != u2 ==> Added(m, u1, u2)[u2] == u1
  {
  }

  /** A table that only loses keys has fewer entries exactly when some key
      is gone. */
  lemma SubTableSize(a: BindTable, b: BindTable)
    requires a.Keys <= b.Keys
    ensures |a| <= |b|
    ensures |a| < |b| <==> a.Keys != b.Keys
  {
    var ka, kb := a.Keys, b.Keys;
    assert ka * kb == ka && ka + kb == kb;
    assert |kb - ka| + |ka| == |kb|;
    assert |a| == |ka| && |b| == |kb|;
    if ka != kb {
      var x :| x in kb && x !in ka;
      assert x in kb - ka;
    }
  }

  /** The save guard of `add_bind`: the table grows exactly when one of the
      users had no entry, that is exactly when it changed. */
  lemma AddedGrowsIff(m: BindTable, u1: string, u2: string)
    ensures |m| < |Added(m, u1, u2)| <==> u1 !in m || u2 !in m
    ensures |m| < |Added(m, u1, u2)| <==> Added(m, u1, u2) != m
  {
    var r := Added(m, u1, u2);
    AddedNeverOverwrites(m, u1, u2);
    SubTableSize(m, r);
    if r != m {
      assert r.Keys != m.Keys;
    }
  }

  /** A removal keeps the entries it does not name, unchanged. */
  lemma WithoutPairKeeps(m: BindTable, u1: string, u2: string)
    ensures forall k :: k in WithoutPair(m, u1, u2) <==> k in m && !LinksPair(k, m[k], u1, u2)
    ensures forall k :: k in WithoutPair(m, u1, u2) ==> WithoutPair(m, u1, u2)[k] == m[k]
    ensures !(exists k :: k in WithoutPair(m, u1, u2) && LinksPair(k, WithoutPair(m, u1, u2)[k], u1, u2))
  {
  }

  /** The save guard of `rm_bind_pair`: the table shrinks exactly when it
      held one direction of the pair, that is exactly when it changed. */
  lemma WithoutPairShrinksIff(m: BindTable, u1: string, u2: string)
    ensures |WithoutPair(m, u1, u2)| < |m| <==> exists k :: k in m && LinksPair(k, m[k], u1, u2)
    ensures |WithoutPair(m, u1, u2)| < |m| <==> WithoutPair(m, u1, u2) != m
  {
    var r := WithoutPair(m, u1, u2);
    SubTableSize(r, m);
    if exists k :: k in m && LinksPair(k, m[k], u1, u2) {
      var k :| k in m && LinksPair(k, m[k], u1, u2);
      assert k !in r;
    }
    if r != m {
      assert r.Keys != m.Keys;
    }
  }

  /** After removing a user, no entry names it, on either side; every other
      entry is kept. */
  lemma WithoutUserKeeps(m: BindTable, u: string)
    ensures forall k :: k in WithoutUser(m, u) <==> k in m && k != u && m[k] != u
    ensures forall k :: k in WithoutUser(m, u) ==> WithoutUser(m, u)[k] == m[k] && WithoutUser(m, u)[k] != u
    ensures u !in WithoutUser(m, u)
  {
  }

  /** The save guard of `rm_user_all_bind`: the table shrinks exactly when
      some entry named the user, that is exactly when it changed. */
  lemma WithoutUserShrinksIff(m: BindTable, u: string)
    ensures |WithoutUser(m, u)| < |m| <==> u in m || exists k :: k in m && m[k] == u
    ensures |WithoutUser(m, u)| < |m| <==> WithoutUser(m, u) != m
  {
    var r := WithoutUser(m, u);
    SubTableSize(r, m);
    if u in m {
      assert u !in r;
    }
    if exists k :: k in m && m[k] == u {
      var k :| k in m && m[k] == u;
      assert k !in r;
    }
    if r != m {
      assert r.Keys != m.Keys;
    }
  }

  /** Every user that is a key is bound back by its partner. */
  ghost predicate Symmetric(m: BindTable) {
    forall k :: k in m ==> m[k] in m && m[m[k]] == k
  }

  /** Binding two distinct users that are both unbound keeps the table
      symmetric, and removing the pair again restores the table. */
  lemma AddFreshPair(m: BindTable, u1: string, u2: string)
    requires u1 !in m && u2 !in m && u1 != u2
    ensures Symmetric(m) ==> Symmetric(Added(m, u1, u2))
    ensures Symmetric(m) ==> WithoutPair(Added(m, u1, u2), u1, u2) == m
  {
    var r := Added(m, u1, u2);
    assert r == m[u1 := u2][u2 := u1];
    if Symmetric(m) {
      var w := WithoutPair(r, u1, u2);
      forall k | k in m
        ensures k in w && w[k] == m[k]
      {
        assert m[k] != u1 && m[k] != u2 by { assert m[k] in m; }
      }
      assert w.Keys == m.Keys;
    }
  }

  /** An existing binding is kept, so binding a second user to an already
      bound one leaves the table unsymmetric: after "aaa" is bound to "bbb",
      binding "ccc" to "aaa" adds only "ccc" -> "aaa". */
  lemma AddToBoundUser()
    ensures var m := Added(Added(map[], "aaa", "bbb"), "ccc", "aaa");
      m == map["aaa" := "bbb", "bbb" := "aaa", "ccc" := "aaa"] && !Symmetric(m)
  {
    var m := Added(Added(map[], "aaa", "bbb"), "ccc", "aaa");
    assert Added(map[], "aaa", "bbb") == map["aaa" := "bbb", "bbb" := "aaa"];
    assert m == map["aaa" := "bbb", "bbb" := "aaa", "ccc" := "aaa"];
    assert "ccc" in m && m[m["ccc"]] != "ccc";
  }

  /** The bind map as held between loading and saving. */
  class BindMap {
    var binds: BindTable

    /** The table as loaded from disk (empty when there is none). */
    constructor (loaded: BindTable)
      ensures binds == loaded
    {
      binds := loaded;
    }

    /** `get_bind`: the partner stored for the user, if any. */
    function GetBind(user: string): (r: Option<string>)
      reads this
      ensures r.Some? <==> user in binds
      ensures r.Some? ==> r.value == binds[user]
    {
      if user in binds then Some(binds[user]) else None
    }

    /** `add_bind`; `saved` tells whether the table is written back. */
    method AddBind(user1: string, user2: string) returns (saved: bool)
      modifies this
      ensures binds == Added(old(binds), user1, user2)
      ensures saved <==> binds != old(binds)
    {
      var len := |binds|;
      if user1 !in binds {
        binds := binds[user1 := user2];
      }
      if user2 !in binds {
        binds := binds[user2 := user1];
      }
      AddedGrowsIff(old(binds), user1, user2);
      saved := len < |binds|;
    }

    /** `rm_bind_pair`; `saved` tells whether the table is written back. */
    method RmBindPair(user1: string, user2: string) returns (saved: bool)
      modifies this
      ensures binds == WithoutPair(old(binds), user1, user2)
      ensures saved <==> binds != old(binds)
    {
      var len := |binds|;
      binds := map k | k in binds && !LinksPair(k, binds[k], user1, user2) :: binds[k];
      WithoutPairShrinksIff(old(binds), user1, user2);
      saved := len > |binds|;
    }

    /** `rm_user_all_bind`; `saved` tells whether the table is written back. */
    method RmUserAllBind(user: string) returns (saved: bool)
      modifies this
      ensures binds == WithoutUser(old(binds), user)
      ensures saved <==> binds != old(binds)
    {
      var len := |binds|;
      binds := map k | k in binds && k != user && binds[k] != user :: binds[k];
      WithoutUserShrinksIff(old(binds), user);
      saved := len > |binds|;
    }
  }
}
