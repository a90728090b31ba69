/** The records kept in the four JSON files (products, messages, carts,
    buy requests) and the array operations the handlers apply to them:
    `filter` by id, `find` by id and `findIndex` by id. */
module Records {
  import opened Values

  /** One element of a resource's JSON array. `id` is shared by all four
      kinds; a buy request embeds a copy of the product it was made for. */
  datatype Record =
    | Message(id: string, name: Value, email: Value, message: Value, date: string)
    | CartSubmission(id: string, contact: Value, message: Value, cart: seq<Value>, date: string)
    | BuyRequest(id: string, name: Value, contact: Value, message: Value, product: Record, date: string)
    | Product(id: string, title: Value, description: Value, price: Value, images: seq<string>)

  predicate HasId(rs: seq<Record>, id: string)
  {
    exists k :: 0 <= k < |rs| && rs[k].id == id
  }

  /** No two records of one resource share an id. */
  predicate UniqueIds(rs: seq<Record>)
  {
    forall i, j :: 0 <= i < j < |rs| ==> rs[i].id != rs[j].id
  }

  /** Number of records whose id is `id`. */
  function CountId(rs: seq<Record>, id: string): (n: nat)
    ensures n <= |rs|
    ensures n == 0 <==> !HasId(rs, id)
  {
    if rs == [] then 0
    else
      var n := (if rs[0].id == id then 1 else 0) + CountId(rs[1..], id);
      assert HasId(rs[1..], id) ==> HasId(rs, id) by {
        if HasId(rs[1..], id) {
          var k :| 0 <= k < |rs[1..]| && rs[1..][k].id == id;
          assert rs[k + 1].id == id;
        }
      }
      assert rs[0].id != id && HasId(rs, id) ==> HasId(rs[1..], id) by {
        if rs[0].id != id && HasId(rs, id) {
          var k :| 0 <= k < |rs| && rs[k].id == id;
          assert rs[1..][k - 1].id == id;
        }
      }
      n
  }

  /** `rs.filter(r => r.id !== id)`: every record whose id differs from
      `id`, in array order. The result has no record with that id and is
      shorter by exactly the number of matches. */
  function RemoveId(rs: seq<Record>, id: string): (r: seq<Record>)
    ensures |r| == |rs| - CountId(rs, id)
    ensures forall k :: 0 <= k < |r| ==> r[k].id != id
  {
    if rs == [] then []
    else (if rs[0].id == id then [] else [rs[0]]) + RemoveId(rs[1..], id)
  }

  /** Filtering distributes over concatenation: with the one-record cases
      this fixes the result, so the kept records keep their relative order. */
  lemma {:induction false} RemoveIdAppend(a: seq<Record>, b: seq<Record>, id: string)
    ensures RemoveId(a + b, id) == RemoveId(a, id) + RemoveId(b, id)
  {
    if a == [] {
      assert a + b == b;
    } else {
      assert (a + b)[1..] == a[1..] + b;
      RemoveIdAppend(a[1..], b, id);
    }
  }

  /** On one record the filter keeps it exactly when its id differs. */
  lemma RemoveIdSingle(x: Record, id: string)
    ensures RemoveId([x], id) == if x.id == id then [] else [x]
  {
  }

  /** A record is in the filtered list exactly when it was in the list and
      its id differs from `id`. */
  lemma {:induction false} RemoveIdMembers(rs: seq<Record>, id: string, x: Record)
    ensures x in RemoveId(rs, id) <==> x in rs && x.id != id
  {
    if rs != [] {
      RemoveIdMembers(rs[1..], id, x);
      assert rs == [rs[0]] + rs[1..];
    }
  }

  /** Each kept record occurs as often as before; a removed id not at all. */
  lemma {:induction false} RemoveIdMultiset(rs: seq<Record>, id: string, x: Record)
    ensures multiset(RemoveId(rs, id))[x] == if x.id == id then 0 else multiset(rs)[x]
  {
    if rs != [] {
      RemoveIdMultiset(rs[1..], id, x);
      var head := if rs[0].id == id then [] else [rs[0]];
      assert RemoveId(rs, id) == head + RemoveId(rs[1..], id);
      assert multiset(RemoveId(rs, id)) == multiset(head) + multiset(RemoveId(rs[1..], id));
      assert rs == [rs[0]] + rs[1..];
      assert multiset(rs) == multiset([rs[0]]) + multiset(rs[1..]);
    }
  }

  /** Deleting an id changes the list exactly when the id is present:
      deleting an absent id rewrites the same list. */
  lemma RemoveIdUnchangedIff(rs: seq<Record>, id: string)
    ensures RemoveId(rs, id) == rs <==> !HasId(rs, id)
  {
  }

  lemma {:induction false} RemoveIdIdentity(rs: seq<Record>, id: string)
    requires !HasId(rs, id)
    ensures RemoveId(rs, id) == rs
  {
    if rs != [] {
      assert rs[0].id != id;
      RemoveIdIdentity(rs[1..], id);
    }
  }

  /** Filtering twice by the same id is filtering once. */
  lemma RemoveIdIdempotent(rs: seq<Record>, id: string)
    ensures RemoveId(RemoveId(rs, id), id) == RemoveId(rs, id)
  {
    RemoveIdUnchangedIff(RemoveId(rs, id), id);
  }

  /** With unique ids, a present id matches exactly one record. */
  lemma {:induction false} UniqueCount(rs: seq<Record>, id: string)
    requires UniqueIds(rs) && HasId(rs, id)
    ensures CountId(rs, id) == 1
  {
    if rs[0].id == id {
      assert !HasId(rs[1..], id);
    } else {
      UniqueCount(rs[1..], id);
    }
  }

  /** Deleting keeps ids unique. */
  lemma RemoveIdKeepsUnique(rs: seq<Record>, id: string)
    requires UniqueIds(rs)
    ensures UniqueIds(RemoveId(rs, id))
  {
    if rs != [] {
      RemoveIdKeepsUnique(rs[1..], id);
      var tail := RemoveId(rs[1..], id);
      forall k | 0 <= k < |tail| ensures tail[k].id != rs[0].id {
        RemoveIdMembers(rs[1..], id, tail[k]);
        var j :| 0 <= j < |rs[1..]| && rs[1..][j] == tail[k];
        assert rs[j + 1] == tail[k];
      }
    }
  }

  /** Appending a record with a fresh id keeps ids unique. */
  lemma AppendFreshKeepsUnique(rs: seq<Record>, x: Record)
    requires UniqueIds(rs) && !HasId(rs, x.id)
    ensures UniqueIds(rs + [x])
  {
  }

  /** Deleting the id of a record that was just appended with a fresh id
      gives back the list as it was before the append. */
  lemma DeleteUndoesAppend(rs: seq<Record>, x: Record)
    requires !HasId(rs, x.id)
    ensures RemoveId(rs + [x], x.id) == rs
  {
    RemoveIdAppend(rs, [x], x.id);
    RemoveIdSingle(x, x.id);
    RemoveIdUnchangedIff(rs, x.id);
  }

  /** `rs.findIndex(r => r.id === id)`: the position of the first record
      with that id, or -1 when there is none. */
  function FirstIndex(rs: seq<Record>, id: string): (k: int)
    ensures -1 <= k < |rs|
    ensures k == -1 <==> !HasId(rs, id)
    ensures 0 <= k ==> rs[k].id == id && forall j :: 0 <= j < k ==> rs[j].id != id
  {
    if rs == [] then -1
    else if rs[0].id == id then 0
    else
      var k := FirstIndex(rs[1..], id);
      assert HasId(rs, id) ==> HasId(rs[1..], id) by {
        if HasId(rs, id) {
          var m :| 0 <= m < |rs| && rs[m].id == id;
          assert rs[1..][m - 1].id == id;
        }
      }
      if k < 0 then -1 else k + 1
  }

  /** `rs.find(r => r.id === id)`: the first record with that id. It is
      the record at `findIndex`, and absent exactly when `findIndex` is -1. */
  function Find(rs: seq<Record>, id: string): (r: Option<Record>)
    ensures r.None? <==> FirstIndex(rs, id) == -1
    ensures r.Some? ==> r.value == rs[FirstIndex(rs, id)] && r.value.id == id
  {
    if rs == [] then None
    else if rs[0].id == id then Some(rs[0])
    else Find(rs[1..], id)
  }

  /** `find` with a request field as the key: `===` against a string id
      only matches when the field is that same string. */
  function FindByValue(rs: seq<Record>, key: Value): (r: Option<Record>)
    ensures r.Some? ==> key.Str? && r.value.id == key.s && r.value in rs
    ensures r.Some? ==> r.value == rs[FirstIndex(rs, key.s)]
    ensures r.None? <==> !key.Str? || !HasId(rs, key.s)
  {
    match key
    case Str(s) => Find(rs, s)
    case _ => None
  }
}
