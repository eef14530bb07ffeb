/** Sitecore's `UrlString`: a URL split into protocol, host, path and an ordered parameter list.
    Turning text into a `Url` and back is Sitecore's own code and is a collaborator
    (see `Platform.Sitecore`); what is modelled here is the parameter collection the CDN code
    reads and edits with `url[key]`, `url.Add`, `url[key] = value` and `url.Remove`. */
module Urls {
  import opened Outcomes
  import opened Text

  datatype Param = Param(key: string, value: string)

  datatype Url = Url(protocol: string, host: string, path: string, query: seq<Param>)

  /** Parameter names are compared without regard to ASCII case, as the name/value collection
      behind `UrlString` does. */
  predicate KeyEq(a: string, b: string) {
    ToLower(a) == ToLower(b)
  }

  /** The parameter `key` is listed at position `i`. */
  predicate KeyAt(q: seq<Param>, key: string, i: int) {
    0 <= i < |q| && KeyEq(q[i].key, key)
  }

  /** `url[key]`: the value of the first parameter named `key`, or None (C# `null`). */
  function Get(q: seq<Param>, key: string): (r: Option<string>)
    ensures r.None? <==> forall i :: !KeyAt(q, key, i)
    ensures r.Some? ==> exists i :: KeyAt(q, key, i) && q[i].value == r.value
  {
    if |q| == 0 then None
    else if KeyEq(q[0].key, key) then
      assert KeyAt(q, key, 0);
      Some(q[0].value)
    else
      var r := Get(q[1..], key);
      assert !KeyAt(q, key, 0);
      assert forall i :: KeyAt(q, key, i) ==> KeyAt(q[1..], key, i - 1);
      assert forall i :: KeyAt(q[1..], key, i) ==> KeyAt(q, key, i + 1);
      r
  }

  /** The value read is that of the first parameter with the key. */
  lemma {:induction false} GetFirst(q: seq<Param>, key: string, i: int)
    requires KeyAt(q, key, i)
    requires forall j :: 0 <= j < i ==> !KeyAt(q, key, j)
    ensures Get(q, key) == Some(q[i].value)
    decreases |q|
  {
    if !KeyEq(q[0].key, key) {
      assert KeyAt(q[1..], key, i - 1);
      assert forall j :: 0 <= j < i - 1 ==> KeyAt(q[1..], key, j) ==> KeyAt(q, key, j + 1);
      GetFirst(q[1..], key, i - 1);
      assert q[1..][i - 1] == q[i];
    } else {
      assert KeyAt(q, key, 0);
    }
  }

  /** `url.Add(key, value)` and `url[key] = value`: the first parameter named `key` takes the new
      value in place; when there is none, the parameter is appended. */
  function Set(q: seq<Param>, key: string, value: string): (r: seq<Param>)
    ensures |q| <= |r| <= |q| + 1
    ensures |r| > 0 && (|r| == |q| + 1 ==> r[|q|] == Param(key, value))
  {
    if |q| == 0 then [Param(key, value)]
    else if KeyEq(q[0].key, key) then [q[0].(value := value)] + q[1..]
    else [q[0]] + Set(q[1..], key, value)
  }

  /** `url.Remove(key)`: every parameter named `key` is dropped, the others keep their order. */
  function Remove(q: seq<Param>, key: string): (r: seq<Param>)
    ensures |r| <= |q|
    ensures forall p :: p in r <==> p in q && !KeyEq(p.key, key)
  {
    if |q| == 0 then []
    else if KeyEq(q[0].key, key) then Remove(q[1..], key)
    else [q[0]] + Remove(q[1..], key)
  }

  /** `Set` on a present key: exactly the first parameter with that key takes the new value, under
      its own spelling of the key; everything before and after it is kept in order. */
  lemma {:induction false} SetFirst(q: seq<Param>, key: string, value: string, i: int)
    requires KeyAt(q, key, i)
    requires forall j :: 0 <= j < i ==> !KeyAt(q, key, j)
    ensures Set(q, key, value) == q[..i] + [Param(q[i].key, value)] + q[i + 1..]
    decreases |q|
  {
    if i == 0 {
      assert q[..0] == [];
    } else {
      assert !KeyAt(q, key, 0);
      var t := q[1..];
      assert KeyAt(t, key, i - 1) by { assert t[i - 1] == q[i]; }
      forall j | 0 <= j < i - 1
        ensures !KeyAt(t, key, j)
      {
        assert !KeyAt(q, key, j + 1);
        assert t[j] == q[j + 1];
      }
      SetFirst(t, key, value, i - 1);
      assert Set(q, key, value) == [q[0]] + Set(t, key, value);
      assert t[..i - 1] == q[1..i] && t[i - 1] == q[i] && t[i..] == q[i + 1..];
      assert q[..i] == [q[0]] + q[1..i];
    }
  }

  /** `Remove` distributes over concatenation: it works parameter by parameter. */
  lemma {:induction false} RemoveAppend(a: seq<Param>, b: seq<Param>, key: string)
    ensures Remove(a + b, key) == Remove(a, key) + Remove(b, key)
    decreases |a|
  {
    if |a| > 0 {
      assert (a + b)[1..] == a[1..] + b;
      RemoveAppend(a[1..], b, key);
    } else {
      assert a + b == b;
    }
  }

  /** `Remove` on one parameter: dropped exactly when its key matches. Together with
      `RemoveAppend` this fixes `Remove` on every list, order included. */
  lemma RemoveSingle(p: Param, key: string)
    ensures KeyEq(p.key, key) ==> Remove([p], key) == []
    ensures !KeyEq(p.key, key) ==> Remove([p], key) == [p]
  {
    assert [p][1..] == [];
  }

  /** After `Set`, reading `key` gives the value just set. */
  lemma {:induction false} GetSetSame(q: seq<Param>, key: string, value: string)
    ensures Get(Set(q, key, value), key) == Some(value)
  {
    if |q| > 0 && !KeyEq(q[0].key, key) {
      GetSetSame(q[1..], key, value);
      assert Set(q, key, value)[1..] == Set(q[1..], key, value);
    }
  }

  /** `Set` leaves every other parameter's value as it was. */
  lemma {:induction false} GetSetOther(q: seq<Param>, key: string, value: string, other: string)
    requires !KeyEq(key, other)
    ensures Get(Set(q, key, value), other) == Get(q, other)
  {
    if |q| > 0 {
      var r := Set(q, key, value);
      if KeyEq(q[0].key, key) {
        assert r[1..] == q[1..];
      } else if !KeyEq(q[0].key, other) {
        GetSetOther(q[1..], key, value, other);
        assert r[1..] == Set(q[1..], key, value);
      }
    }
  }

  /** Setting a parameter to the value it already has changes nothing. */
  lemma {:induction false} SetExisting(q: seq<Param>, key: string, value: string)
    requires Get(q, key) == Some(value)
    ensures Set(q, key, value) == q
  {
    if |q| > 0 {
      if KeyEq(q[0].key, key) {
        assert q == [q[0]] + q[1..];
      } else {
        assert Get(q[1..], key) == Get(q, key);
        SetExisting(q[1..], key, value);
        assert q == [q[0]] + q[1..];
      }
    }
  }

  /** Setting an absent parameter appends it after all existing ones. */
  lemma {:induction false} SetAbsent(q: seq<Param>, key: string, value: string)
    requires Get(q, key) == None
    ensures Set(q, key, value) == q + [Param(key, value)]
  {
    if |q| > 0 {
      SetAbsent(q[1..], key, value);
    }
  }

  /** After `Remove`, the parameter is absent. */
  lemma {:induction false} GetRemoveSame(q: seq<Param>, key: string)
    ensures Get(Remove(q, key), key) == None
  {
    if |q| > 0 {
      GetRemoveSame(q[1..], key);
      if !KeyEq(q[0].key, key) {
        assert Remove(q, key)[1..] == Remove(q[1..], key);
      }
    }
  }

  /** `Remove` leaves every other parameter's value as it was. */
  lemma {:induction false} GetRemoveOther(q: seq<Param>, key: string, other: string)
    requires !KeyEq(key, other)
    ensures Get(Remove(q, key), other) == Get(q, other)
  {
    if |q| > 0 {
      GetRemoveOther(q[1..], key, other);
      if !KeyEq(q[0].key, key) {
        assert Remove(q, key)[1..] == Remove(q[1..], key);
      }
    }
  }

  /** Removing an absent parameter changes nothing. */
  lemma {:induction false} RemoveAbsent(q: seq<Param>, key: string)
    requires Get(q, key) == None
    ensures Remove(q, key) == q
  {
    if |q| > 0 {
      assert !KeyAt(q, key, 0);
      assert Get(q[1..], key) == None;
      RemoveAbsent(q[1..], key);
    }
  }
}
