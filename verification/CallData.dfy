/** The data a proxied call carries from its request phase to its response phase, stored under formatted keys. */
module CallData {
  import opened Decimals
  import opened Options

  /** A module's ID and the name of one of its entries. */
  datatype Slot = Slot(id: nat, key: string)

  /** `fmt.Sprintf("%d:%s", moduleID, key)`. */
  function FormatKey(moduleID: nat, key: string): string {
    Decimal(moduleID) + [':'] + key
  }

  lemma {:induction false} SameBeforeColon(a: string, b: string, x: string, y: string)
    requires (forall i :: 0 <= i < |a| ==> a[i] != ':') && (forall i :: 0 <= i < |b| ==> b[i] != ':')
    requires a + [':'] + x == b + [':'] + y
    ensures a == b && x == y
  {
    var s, t := a + [':'] + x, b + [':'] + y;
    assert s[|a|] == ':' && t[|b|] == ':';
    assert forall i :: 0 <= i < |a| ==> s[i] == a[i];
    assert forall i :: 0 <= i < |b| ==> t[i] == b[i];
    assert |a| == |b|;
    assert a == s[..|a|] && b == t[..|b|];
    assert x == s[|a| + 1..] && y == t[|b| + 1..];
  }

  /** No two slots share a key, whatever the entry names contain. */
  lemma FormatKeyInjective(i: nat, k: string, j: nat, l: string)
    requires FormatKey(i, k) == FormatKey(j, l)
    ensures i == j && k == l
  {
    SameBeforeColon(Decimal(i), Decimal(j), k, l);
    DecimalInjective(i, j);
  }

  /** The `data` map of `ProxyCallContext`. The string map refines a map on slots. */
  class CallContext<V> {
    var data: map<string, V>
    ghost var slots: map<Slot, V>

    ghost predicate Valid()
      reads this
    {
      && (forall p <- slots :: FormatKey(p.id, p.key) in data && data[FormatKey(p.id, p.key)] == slots[p])
      && (forall k <- data :: exists p :: p in slots && FormatKey(p.id, p.key) == k)
    }

    constructor ()
      ensures Valid() && slots == map[]
    {
      data, slots := map[], map[];
    }

    method SetData(moduleID: nat, key: string, value: V)
      requires Valid()
      modifies this
      ensures Valid() && slots == old(slots)[Slot(moduleID, key) := value]
    {
      var k := FormatKey(moduleID, key);
      forall p | p in slots && p != Slot(moduleID, key) ensures FormatKey(p.id, p.key) != k {
        if FormatKey(p.id, p.key) == k { FormatKeyInjective(p.id, p.key, moduleID, key); }
      }
      data := data[k := value];
      slots := slots[Slot(moduleID, key) := value];
      forall l <- data ensures exists p :: p in slots && FormatKey(p.id, p.key) == l {
        if l != k {
          var p :| p in old(slots) && FormatKey(p.id, p.key) == l;
          assert p in slots;
        } else {
          assert Slot(moduleID, key) in slots;
        }
      }
    }

    method GetData(moduleID: nat, key: string) returns (value: Option<V>)
      requires Valid()
      ensures value == if Slot(moduleID, key) in slots then Some(slots[Slot(moduleID, key)]) else None
    {
      var k := FormatKey(moduleID, key);
      if k in data {
        ghost var p :| p in slots && FormatKey(p.id, p.key) == k;
        FormatKeyInjective(p.id, p.key, moduleID, key);
        value := Some(data[k]);
      } else {
        assert Slot(moduleID, key) in slots ==> FormatKey(moduleID, key) in data;
        value := None;
      }
    }
  }
}
