/** The key service on an application's rows, and the process-wide cache of
    public keys. */
module KeyService {
  import opened Outcomes
  import opened SigningKeys

  class Application {
    var kid: string
    var pem: string
    var keys: seq<Key>

    constructor (kid: string, pem: string)
      ensures Rows() == Ring(kid, pem, [])
    {
      this.kid, this.pem, keys := kid, pem, [];
    }

    ghost function Rows(): Ring
      reads this
    {
      Ring(kid, pem, keys)
    }

    method EnsureKeys() returns (r: seq<Key>)
      modifies this`keys
      ensures Rows() == Adopt(old(Rows())) && r == keys
    {
      if keys == [] {
        keys := [Key(kid, pem, true, None)];
      }
      return keys;
    }

    method Active() returns (k: Key)
      modifies this`keys
      ensures Rows() == Adopt(old(Rows())) && k == ActiveKey(old(Rows()))
    {
      var all := EnsureKeys();
      for i := 0 to |all|
        invariant forall j :: 0 <= j < i ==> !all[j].active
      {
        if all[i].active {
          assert FirstActive(all) == i;
          return all[i];
        }
      }
      return all[0];
    }

    method RotateKey(newKid: string, newPem: string, now: int) returns (k: Key)
      modifies this
      ensures Rows() == Rotate(old(Rows()), newKid, newPem, now) && k == Rows().keys[0]
    {
      var all := EnsureKeys();
      for i := 0 to |all|
        invariant |keys| == |all| && kid == old(kid) && pem == old(pem)
        invariant forall j :: 0 <= j < i ==> keys[j] == Retire(all[j], now)
        invariant forall j :: i <= j < |all| ==> keys[j] == all[j]
      {
        if keys[i].active {
          keys := keys[i := keys[i].(active := false, retiredAt := Some(now))];
        }
      }
      assert keys == RetireAll(all, now);
      k := Key(newKid, newPem, true, None);
      keys := [k] + keys;
      kid, pem := newKid, newPem;
    }

    method DropRetiredKeys() returns (removed: nat)
      modifies this`keys
      ensures Rows() == Drop(old(Rows()))
      ensures removed == |Adopt(old(Rows())).keys| - |keys|
    {
      var all := EnsureKeys();
      hide Kept;
      keys, removed := DeleteRetired(all);
    }
  }

  /** Go through the rows and delete those that are not active. */
  method DeleteRetired(all: seq<Key>) returns (left: seq<Key>, removed: nat)
    ensures left == Kept(all) && removed + |left| == |all|
  {
    left, removed := [], 0;
    assert left == Kept(all[..0]);
    hide Kept;
    for i := 0 to |all|
      invariant left == Kept(all[..i]) && removed + |left| == i
    {
      var k := all[i];
      KeptAppend(all[..i], k);
      assert all[..i + 1] == all[..i] + [k];
      if k.active {
        left := left + [k];
      } else {
        removed := removed + 1;
      }
    }
    assert all[..|all|] == all;
  }

  lemma KeptAppend(keys: seq<Key>, k: Key)
    ensures Kept(keys + [k]) == if k.active then Kept(keys) + [k] else Kept(keys)
  {
    assert (keys + [k])[..|keys|] == keys;
  }

  class PublicKeyCache {
    const pub: Derive
    var known: map<string, string>

    constructor (pub: Derive)
      ensures this.pub == pub && known == map[]
    {
      this.pub, known := pub, map[];
    }

    method PublicPemForKey(k: Key) returns (p: string)
      modifies this
      ensures known == Remember(pub, old(known), k) && p == known[k.kid]
    {
      if k.kid in known {
        return known[k.kid];
      }
      p := pub(k.pem);
      known := known[k.kid := p];
    }

    /** Try the application's keys in turn until one verifies the token. */
    method DecodeWithAppKeys(app: Application, t: Token, ghost issued: map<string, string>) returns (claims: Option<string>)
      requires Recorded(issued, app.Rows())
      requires Derived(pub, known, issued)
      modifies this, app`keys
      ensures app.Rows() == Adopt(old(app.Rows()))
      ensures known == LookUp(pub, old(known), app.keys, t)
      ensures claims == if Verifies(pub, old(app.Rows()), t) then Some(t.claims) else None
    {
      var keys := app.EnsureKeys();
      assert forall k :: k in keys ==> k.kid in issued && issued[k.kid] == k.pem;
      hide LookUp, Adopt, Recorded, Derived, Remember, Tried;
      NoneTried(pub, known, keys, t);
      for i := 0 to |keys|
        invariant app.Rows() == Adopt(old(app.Rows())) && app.keys == keys
        invariant Tried(pub, old(known), known, keys, i, t)
        invariant Derived(pub, known, issued)
      {
        assert keys[i] in keys;
        RememberDerives(pub, known, keys[i], issued);
        TryNext(pub, old(known), known, keys, i, t);
        var p := PublicPemForKey(keys[i]);
        if p == pub(t.signer) {
          return Some(t.claims);
        }
      }
      AllTried(pub, old(known), known, keys, t);
      return None;
    }
  }
}
