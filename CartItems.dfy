/** The cart's list of product line items, as values: what it means for an id
    to be in the list, adding a product at most once, removing by id, and what
    a run of additions to an empty cart produces. The CartManager class states
    its methods in terms of these functions. */
module CartItems {

  type ProductId = string

  /** A catalogue product. The cart looks only at `id`; every other field
      (name, price, image, ...) is carried along untouched. */
  datatype Product = Product(id: ProductId, attributes: map<string, string>)

  /** True when some item of `items` carries `id`. */
  predicate HasId(items: seq<Product>, id: ProductId)
    ensures HasId(items, id) <==> exists i :: 0 <= i < |items| && items[i].id == id
  {
    if items == [] then false
    else if items[0].id == id then true
    else
      var found := HasId(items[1..], id);
      assert found ==> exists i :: 0 < i < |items| && items[i].id == id by {
        if found {
          var j :| 0 <= j < |items[1..]| && items[1..][j].id == id;
          assert items[j + 1].id == id;
        }
      }
      found
  }

  /** No two line items share an id. */
  ghost predicate UniqueIds(items: seq<Product>)
  {
    forall i, j :: 0 <= i < j < |items| ==> items[i].id != items[j].id
  }

  /** The list after adding `p`: appended at the end unless an item with the
      same id is already there, in which case nothing changes. */
  function Added(items: seq<Product>, p: Product): (r: seq<Product>)
    ensures HasId(r, p.id)
    ensures items <= r && |r| <= |items| + 1
    ensures UniqueIds(items) ==> UniqueIds(r)
    ensures forall id :: HasId(r, id) <==> HasId(items, id) || id == p.id
  {
    if HasId(items, p.id) then items
    else
      assert (items + [p])[|items|] == p;
      items + [p]
  }

  /** The list after removing by id: every item whose id is `id` goes, the
      others stay in their order. */
  function Removed(items: seq<Product>, id: ProductId): (r: seq<Product>)
    ensures !HasId(r, id)
    ensures |r| <= |items|
  {
    if items == [] then []
    else
      var rest := Removed(items[1..], id);
      if items[0].id == id then rest
      else
        assert forall k :: 0 < k < |[items[0]] + rest| ==> ([items[0]] + rest)[k] == rest[k - 1];
        [items[0]] + rest
  }

  /** Removal by `id` keeps every other id exactly where it was present. */
  lemma {:induction false} RemovedKeepsOthers(items: seq<Product>, id: ProductId, other: ProductId)
    requires other != id
    ensures HasId(Removed(items, id), other) <==> HasId(items, other)
  {
    if items != [] {
      RemovedKeepsOthers(items[1..], id, other);
      var rest := Removed(items[1..], id);
      if HasId(items[1..], other) {
        var i :| 0 <= i < |items[1..]| && items[1..][i].id == other;
        assert items[i + 1].id == other;
      }
      if items[0].id != id {
        assert ([items[0]] + rest)[0] == items[0];
        assert ([items[0]] + rest)[1..] == rest;
      }
    }
  }

  /** Removing an id that no item carries leaves the list as it was. */
  lemma {:induction false} RemovedAbsent(items: seq<Product>, id: ProductId)
    requires !HasId(items, id)
    ensures Removed(items, id) == items
  {
    if items != [] {
      assert !HasId(items[1..], id);
      RemovedAbsent(items[1..], id);
      assert items == [items[0]] + items[1..];
    }
  }

  /** Removal keeps the ids unique. */
  lemma {:induction false} RemovedUnique(items: seq<Product>, id: ProductId)
    requires UniqueIds(items)
    ensures UniqueIds(Removed(items, id))
  {
    if items != [] {
      var rest := Removed(items[1..], id);
      UniqueTail(items);
      RemovedUnique(items[1..], id);
      if items[0].id != id {
        RemovedKeepsOthers(items[1..], id, items[0].id);
        var r := [items[0]] + rest;
        forall i, j | 0 <= i < j < |r| ensures r[i].id != r[j].id {
          if i > 0 {
            assert r[i] == rest[i - 1] && r[j] == rest[j - 1];
          } else {
            assert r[j] == rest[j - 1];
          }
        }
      }
    }
  }

  /** Removal distributes over concatenation. */
  lemma {:induction false} RemovedConcat(a: seq<Product>, b: seq<Product>, id: ProductId)
    ensures Removed(a + b, id) == Removed(a, id) + Removed(b, id)
  {
    if a != [] {
      assert (a + b)[1..] == a[1..] + b;
      RemovedConcat(a[1..], b, id);
    } else {
      assert a + b == b;
    }
  }

  /** On a list with unique ids that holds `id`, removal takes out exactly the
      one item carrying it, the first and only one: the list shrinks by one and
      the others keep their order. */
  lemma {:induction false} RemovedExactlyOne(items: seq<Product>, id: ProductId)
    requires UniqueIds(items) && HasId(items, id)
    ensures Removed(items, id) == items[..FirstIndex(items, id)] + items[FirstIndex(items, id) + 1..]
    ensures |Removed(items, id)| == |items| - 1
  {
    UniqueTail(items);
    if items[0].id == id {
      RemovedAbsent(items[1..], id);
    } else {
      RemovedExactlyOne(items[1..], id);
      var k := FirstIndex(items[1..], id);
      assert FirstIndex(items, id) == k + 1;
      assert items[..k + 1] == [items[0]] + items[1..][..k];
      assert items[k + 2..] == items[1..][k + 1..];
    }
  }

  /** The tail of a list with unique ids has unique ids and lacks the head's id. */
  lemma UniqueTail(items: seq<Product>)
    requires UniqueIds(items) && items != []
    ensures UniqueIds(items[1..]) && !HasId(items[1..], items[0].id)
  {
  }

  /** Adding a product that is already there changes nothing: a repeated add
      is a no-op. */
  lemma AddedIdempotent(items: seq<Product>, p: Product)
    ensures Added(Added(items, p), p) == Added(items, p)
  {
  }

  /** Removing by the id of a product just added to a list that did not hold
      that id gives back the list from before the add. */
  lemma RemoveUndoesAdd(items: seq<Product>, p: Product)
    requires !HasId(items, p.id)
    ensures Removed(Added(items, p), p.id) == items
  {
    RemovedConcat(items, [p], p.id);
    RemovedAbsent(items, p.id);
    assert [p][1..] == [];
  }

  /** An id is in `s + [p]` exactly when it is in `s` or is `p`'s. */
  lemma HasIdAppend(s: seq<Product>, p: Product)
    ensures forall id :: HasId(s + [p], id) <==> HasId(s, id) || id == p.id
  {
    forall id ensures HasId(s + [p], id) <==> HasId(s, id) || id == p.id {
      if HasId(s, id) {
        var i :| 0 <= i < |s| && s[i].id == id;
        assert (s + [p])[i] == s[i];
      }
      assert (s + [p])[|s|] == p;
    }
  }

  /** The items of a cart that starts empty and has `addProduct` called with
      each product of `ps` in turn. */
  function AddedInOrder(ps: seq<Product>): (r: seq<Product>)
    ensures UniqueIds(r)
    ensures forall id :: HasId(r, id) <==> HasId(ps, id)
  {
    if ps == [] then []
    else
      var init := ps[..|ps| - 1];
      var last := ps[|ps| - 1];
      assert ps == init + [last];
      HasIdAppend(init, last);
      Added(AddedInOrder(init), last)
  }

  /** Index of the first product of `ps` that carries `id`. */
  function FirstIndex(ps: seq<Product>, id: ProductId): (i: nat)
    requires HasId(ps, id)
    ensures i < |ps| && ps[i].id == id
    ensures forall j :: 0 <= j < i ==> ps[j].id != id
  {
    if ps[0].id == id then 0
    else 1 + FirstIndex(ps[1..], id)
  }

  /** Appending a product to `ps` does not move the first occurrence of an id
      already there, and the appended product is the first occurrence of a
      new id. */
  lemma FirstIndexAppend(ps: seq<Product>, q: Product, id: ProductId)
    requires HasId(ps + [q], id)
    ensures HasId(ps, id) ==> FirstIndex(ps + [q], id) == FirstIndex(ps, id)
    ensures !HasId(ps, id) ==> FirstIndex(ps + [q], id) == |ps|
  {
    if HasId(ps, id) {
      var g := FirstIndex(ps, id);
      assert (ps + [q])[g] == ps[g];
    }
  }

  /** Every item of `r` carries an id seen in `ps`, is the first product of
      `ps` with that id, and the items stand in the order their ids first
      appear in `ps`. */
  ghost predicate FirstSeenOrder(ps: seq<Product>, r: seq<Product>)
  {
    && (forall k :: 0 <= k < |r| ==> HasId(ps, r[k].id))
    && (forall k :: 0 <= k < |r| ==> r[k] == ps[FirstIndex(ps, r[k].id)])
    && (forall k, l :: 0 <= k < l < |r| ==> FirstIndex(ps, r[k].id) < FirstIndex(ps, r[l].id))
  }

  /** Appending a product to `ps` keeps `r` in first-seen order. */
  lemma FirstSeenKeep(ps: seq<Product>, last: Product, r: seq<Product>)
    requires FirstSeenOrder(ps, r)
    ensures FirstSeenOrder(ps + [last], r)
  {
    var ps' := ps + [last];
    forall k | 0 <= k < |r|
      ensures HasId(ps', r[k].id)
      ensures FirstIndex(ps', r[k].id) == FirstIndex(ps, r[k].id)
    {
      HasIdAppend(ps, last);
      FirstIndexAppend(ps, last, r[k].id);
    }
    forall k | 0 <= k < |r| ensures r[k] == ps'[FirstIndex(ps', r[k].id)] {
      assert ps'[FirstIndex(ps, r[k].id)] == ps[FirstIndex(ps, r[k].id)];
    }
  }

  /** A product with an id not yet seen extends a first-seen list at its end. */
  lemma FirstSeenExtend(ps: seq<Product>, last: Product, r: seq<Product>)
    requires FirstSeenOrder(ps, r) && !HasId(ps, last.id)
    ensures FirstSeenOrder(ps + [last], r + [last])
  {
    var ps' := ps + [last];
    var r' := r + [last];
    FirstSeenKeep(ps, last, r);
    assert HasId(ps', last.id) by {
      assert ps'[|ps|] == last;
    }
    FirstIndexAppend(ps, last, last.id);
    forall k | 0 <= k < |r'|
      ensures HasId(ps', r'[k].id) && r'[k] == ps'[FirstIndex(ps', r'[k].id)]
    {
      if k < |r| {
        assert r'[k] == r[k];
      } else {
        assert r'[k] == last;
      }
    }
    forall k, l | 0 <= k < l < |r'|
      ensures FirstIndex(ps', r'[k].id) < FirstIndex(ps', r'[l].id)
    {
      assert r'[k] == r[k];
      if l == |r| {
        assert r'[l] == last;
      } else {
        assert r'[l] == r[l];
      }
    }
  }

  /** Additions in turn to an empty cart keep one item per distinct id, that
      item is the first product with its id, and the items stand in the order
      in which their ids were first seen. */
  lemma {:induction false} AddedInOrderFirstSeen(ps: seq<Product>)
    ensures FirstSeenOrder(ps, AddedInOrder(ps))
  {
    if ps != [] {
      var init := ps[..|ps| - 1];
      assert ps == init + [ps[|ps| - 1]];
      AddedInOrderFirstSeen(init);
      var prev, last := AddedInOrder(init), ps[|ps| - 1];
      if HasId(prev, last.id) {
        FirstSeenKeep(init, last, prev);
      } else {
        FirstSeenExtend(init, last, prev);
      }
    }
  }
}
