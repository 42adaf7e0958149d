/** The `clients` map of the server, seen through its keys: a JavaScript `Map`
    iterates in insertion order, so the registry is the sequence of connected
    ids in the order they were inserted. This module gives the two operations
    the handlers perform on it besides insertion: `Map.delete` and the
    `clients.forEach(... send ...)` fan-out. */
module Registry {
  import opened Messages

  /** No id occurs twice: a map has each key once. */
  predicate Distinct(ids: seq<Id>)
  {
    forall i, j :: 0 <= i < j < |ids| ==> ids[i] != ids[j]
  }

  /** Dropping the last id of a registry leaves a registry, which does not hold that id. */
  lemma DistinctSplit(ids: seq<Id>)
    requires Distinct(ids) && ids != []
    ensures ids == ids[..|ids| - 1] + [ids[|ids| - 1]]
    ensures Distinct(ids[..|ids| - 1]) && ids[|ids| - 1] !in ids[..|ids| - 1]
  {
  }

  /** Cutting entry `k` out of `init + [last]` is cutting it out of `init` and
      keeping `last`, or dropping `last` when it is the entry cut. */
  lemma CutLast(init: seq<Id>, last: Id, id: Id, rest: seq<Id>, k: int)
    requires Distinct(init + [last]) && 0 <= k < |init| + 1 && (init + [last])[k] == id
    requires id !in init ==> rest == init
    requires forall j :: 0 <= j < |init| && init[j] == id ==> rest == init[..j] + init[j + 1..]
    ensures rest + (if last == id then [] else [last]) == (init + [last])[..k] + (init + [last])[k + 1..]
  {
    var ids := init + [last];
    if k == |init| {
      assert ids[..k] == init;
      assert id !in init by {
        forall j | 0 <= j < |init| ensures init[j] != id {
          assert ids[j] == init[j];
        }
      }
    } else {
      assert init[k] == id;
      assert last != id by {
        assert ids[k] != ids[|init|];
      }
      assert ids[..k] == init[..k];
      assert ids[k + 1..] == init[k + 1..] + [last];
    }
  }

  /** Deleting `id` from `init + [last]`: if `rest` is `init` with `id` deleted,
      appending `last` unless it is `id` gives the whole registry with `id` deleted. */
  lemma WithoutStep(init: seq<Id>, last: Id, id: Id, rest: seq<Id>)
    requires forall x :: x in rest <==> x in init && x != id
    requires id !in init ==> rest == init
    requires forall j :: 0 <= j < |init| && init[j] == id && Distinct(init) ==> rest == init[..j] + init[j + 1..]
    requires Distinct(init) ==> Distinct(rest)
    requires |rest| <= |init|
    ensures var ids, r := init + [last], rest + (if last == id then [] else [last]);
      (forall x :: x in r <==> x in ids && x != id) &&
      (id !in ids ==> r == ids) &&
      (forall k :: 0 <= k < |ids| && ids[k] == id && Distinct(ids) ==> r == ids[..k] + ids[k + 1..]) &&
      (Distinct(ids) ==> Distinct(r)) &&
      |r| <= |ids|
  {
    var ids, r := init + [last], rest + (if last == id then [] else [last]);
    if Distinct(ids) {
      assert Distinct(init) && last !in init by {
        forall i, j | 0 <= i < j < |init| ensures init[i] != init[j] {
          assert ids[i] == init[i] && ids[j] == init[j];
        }
        forall j | 0 <= j < |init| ensures init[j] != last {
          assert ids[j] == init[j] && ids[|init|] == last;
        }
      }
      forall k | 0 <= k < |ids| && ids[k] == id
        ensures r == ids[..k] + ids[k + 1..]
      {
        CutLast(init, last, id, rest, k);
      }
    }
  }

  /** `clients.delete(id)`: the registry without `id`, the others in their order.
      Deleting an absent key leaves the map as it was. */
  function Without(ids: seq<Id>, id: Id): (r: seq<Id>)
    ensures forall x :: x in r <==> x in ids && x != id
    ensures id !in ids ==> r == ids
    ensures forall k :: 0 <= k < |ids| && ids[k] == id && Distinct(ids) ==> r == ids[..k] + ids[k + 1..]
    ensures Distinct(ids) ==> Distinct(r)
    ensures |r| <= |ids|
  {
    if ids == [] then []
    else
      var init, last := ids[..|ids| - 1], ids[|ids| - 1];
      assert ids == init + [last];
      WithoutStep(init, last, id, Without(init, id));
      Without(init, id) + (if last == id then [] else [last])
  }

  /** The outbox of a `forEach` over `recipients` that sends `m` to every id
      except `skip` (when there is one), in iteration order. */
  function FanOut(recipients: seq<Id>, skip: Option<Id>, m: Msg): (r: seq<Envelope>)
    ensures |r| <= |recipients|
    ensures forall k :: 0 <= k < |r| ==> r[k].msg == m && r[k].to in recipients && skip != Some(r[k].to)
    ensures Distinct(recipients) ==> forall i, j :: 0 <= i < j < |r| ==> r[i].to != r[j].to
  {
    if recipients == [] then []
    else
      var init, last := recipients[..|recipients| - 1], recipients[|recipients| - 1];
      assert recipients == init + [last];
      FanOut(init, skip, m) + (if skip == Some(last) then [] else [Envelope(last, m)])
  }

  /** A fan-out over a registry reaches every id in it other than `skip` with
      exactly one copy of `m`, and nobody else. */
  lemma {:induction false} FanOutInbox(recipients: seq<Id>, skip: Option<Id>, m: Msg, id: Id)
    requires Distinct(recipients)
    ensures Inbox(FanOut(recipients, skip, m), id) == if id in recipients && skip != Some(id) then [m] else []
    decreases |recipients|
  {
    if recipients != [] {
      var init, last := recipients[..|recipients| - 1], recipients[|recipients| - 1];
      DistinctSplit(recipients);
      var tail := if skip == Some(last) then [] else [Envelope(last, m)];
      assert FanOut(recipients, skip, m) == FanOut(init, skip, m) + tail;
      if tail != [] {
        assert tail[..0] == [];
      }
      InboxAppend(FanOut(init, skip, m), tail, id);
      FanOutInbox(init, skip, m, id);
    }
  }

  /** A fan-out writes in registry order: its addressees are the registry with
      `skip` deleted. */
  lemma {:induction false} FanOutOrder(recipients: seq<Id>, skip: Option<Id>, m: Msg)
    ensures Addressees(FanOut(recipients, skip, m)) == if skip.Some? then Without(recipients, skip.value) else recipients
    decreases |recipients|
  {
    if recipients != [] {
      var init, last := recipients[..|recipients| - 1], recipients[|recipients| - 1];
      assert recipients == init + [last];
      FanOutOrder(init, skip, m);
      var prefix := FanOut(init, skip, m);
      if skip != Some(last) {
        assert (prefix + [Envelope(last, m)])[..|prefix|] == prefix;
      } else {
        assert prefix + [] == prefix;
      }
    }
  }
}
