/** Ingestion of Meta webhooks: every status item of a payload is stored once, under a
    unique external id, and then queued. */
module WebhookIngestion {
  /** A status item; a missing field is an empty string. The last two say whether the
      database and the broker answered while it was handled. */
  datatype Item = Item(id: string, status: string, dbUp: bool, brokerUp: bool)

  type Change = seq<Item>     // change.value.statuses
  type PayloadEntry = seq<Change>

  datatype Job = Job(wamid: string, statusStr: string)

  /** The external ids stored so far, and the jobs queued, oldest first. */
  datatype Store = Store(events: set<string>, queue: seq<Job>)

  function ExternalId(id: string, status: string): string {
    id + "_" + status
  }

  function KeyOf(item: Item): string {
    ExternalId(item.id, item.status)
  }

  /** The item reaches the insert, and the database answers. */
  predicate Inserts(item: Item) {
    item.id != "" && item.status != "" && item.dbUp
  }

  function Ingest(s: Store, item: Item): Store {
    if !Inserts(item) || KeyOf(item) in s.events then s
    else Store(s.events + {KeyOf(item)}, if item.brokerUp then s.queue + [Job(item.id, item.status)] else s.queue)
  }

  /** The store after the first n items. */
  function IngestAll(s: Store, items: seq<Item>, n: nat): Store
    requires n <= |items|
  {
    if n == 0 then s else Ingest(IngestAll(s, items, n - 1), items[n - 1])
  }

  /* ---- At most once, and exactly when ---- */

  function JobKey(job: Job): string {
    ExternalId(job.wamid, job.statusStr)
  }

  predicate QueueOk(s: Store) {
    (forall i :: 0 <= i < |s.queue| ==> JobKey(s.queue[i]) in s.events) &&
    forall i, j :: 0 <= i < j < |s.queue| ==> JobKey(s.queue[i]) != JobKey(s.queue[j])
  }

  /** Over any stream of items, repeated at will, no external id is queued twice. */
  lemma {:induction false} QueuedAtMostOnce(s: Store, items: seq<Item>, n: nat)
    requires QueueOk(s) && n <= |items|
    ensures QueueOk(IngestAll(s, items, n))
  {
    if n == 0 {
    } else {
      QueuedAtMostOnce(s, items, n - 1);
    }
  }

  predicate Queued(s: Store, key: string) {
    exists i :: 0 <= i < |s.queue| && JobKey(s.queue[i]) == key
  }

  /** Item k is the first one that stores its key. */
  predicate FirstOf(s: Store, items: seq<Item>, k: nat)
    requires k < |items|
  {
    Inserts(items[k]) && KeyOf(items[k]) !in s.events &&
    forall i :: 0 <= i < k && Inserts(items[i]) ==> KeyOf(items[i]) != KeyOf(items[k])
  }

  lemma {:induction false} StoredIff(s: Store, items: seq<Item>, n: nat, key: string)
    requires n <= |items|
    ensures key in IngestAll(s, items, n).events <==>
      key in s.events ||
      exists i :: 0 <= i < n && items[i].id != "" && items[i].status != "" && items[i].dbUp &&
                  items[i].id + "_" + items[i].status == key
  {
    if n == 0 {
    } else {
      StoredIff(s, items, n - 1, key);
    }
  }

  lemma {:induction false} QueuedStays(s: Store, items: seq<Item>, k: nat, n: nat, key: string)
    requires k <= n <= |items| && key in IngestAll(s, items, k).events
    ensures key in IngestAll(s, items, n).events
    ensures Queued(IngestAll(s, items, n), key) <==> Queued(IngestAll(s, items, k), key)
  {
    if k == n {
    } else {
      QueuedStays(s, items, k, n - 1, key);
      var before, after := IngestAll(s, items, n - 1), IngestAll(s, items, n);
      if Queued(before, key) {
        var i :| 0 <= i < |before.queue| && JobKey(before.queue[i]) == key;
        assert JobKey(after.queue[i]) == key;
      }
    }
  }

  /** An event is queued if and only if the broker answered when it was first stored: when
      it did not, no later delivery of the same event queues it either. */
  lemma QueuedIffBrokerUpAtFirst(s: Store, items: seq<Item>, k: nat, n: nat)
    requires QueueOk(s) && k < n <= |items| && FirstOf(s, items, k)
    ensures Queued(IngestAll(s, items, n), KeyOf(items[k])) <==> items[k].brokerUp
  {
    var key := KeyOf(items[k]);
    var before, after := IngestAll(s, items, k), IngestAll(s, items, k + 1);
    QueuedAtMostOnce(s, items, k);
    StoredIff(s, items, k, key);
    assert !Queued(before, key);
    if items[k].brokerUp {
      assert JobKey(after.queue[|before.queue|]) == key;
    }
    QueuedStays(s, items, k + 1, n, key);
  }

  predicate EndsWith(s: string, tail: string) {
    |tail| <= |s| && s[|s| - |tail|..] == tail
  }

  predicate SameExternalId(id1: string, status1: string, id2: string, status2: string) {
    ExternalId(id1, status1) == ExternalId(id2, status2)
  }

  /** The longer status of two equal external ids ends with the other one's tail. */
  lemma SharedIdTail(id1: string, status1: string, id2: string, status2: string)
    requires SameExternalId(id1, status1, id2, status2) && |status2| <= |status1|
    ensures (id1 == id2 && status1 == status2) || EndsWith(status1, "_" + status2)
  {
    var key := ExternalId(id1, status1);
    assert key == id2 + ("_" + status2) && key == (id1 + "_") + status1;
    var d := |status1| - |status2|;
    if d == 0 {
      assert id1 == key[..|id1|] && id2 == key[..|id1|];
      assert status1 == key[|id1| + 1..] && status2 == key[|id1| + 1..];
    } else {
      assert status1[d - 1..] == key[|id1| + 1 + (d - 1)..];
      assert "_" + status2 == key[|id2|..];
      assert |id2| == |id1| + d;
    }
  }

  lemma TailSharesId(status1: string, status2: string)
    requires EndsWith(status1, "_" + status2)
    ensures SameExternalId("", status1, "_" + status1[..|status1| - |status2| - 1], status2)
  {
    var d := |status1| - |status2| - 1;
    assert status1 == status1[..d] + ("_" + status2);
    assert "" + "_" + status1 == ("_" + status1[..d]) + "_" + status2;
  }

  /** Two different statuses can share an external id, for some message ids, if and only if
      one ends with an underscore and the other. */
  lemma StatusesCollideIff(status1: string, status2: string)
    requires status1 != status2
    ensures (exists id1, id2 :: SameExternalId(id1, status1, id2, status2)) <==>
            EndsWith(status1, "_" + status2) || EndsWith(status2, "_" + status1)
  {
    if EndsWith(status1, "_" + status2) {
      TailSharesId(status1, status2);
    } else if EndsWith(status2, "_" + status1) {
      TailSharesId(status2, status1);
      var id := "_" + status2[..|status2| - |status1| - 1];
      assert SameExternalId(id, status1, "", status2);
    } else if exists id1, id2 :: SameExternalId(id1, status1, id2, status2) {
      var id1, id2 :| SameExternalId(id1, status1, id2, status2);
      if |status2| <= |status1| {
        SharedIdTail(id1, status1, id2, status2);
      } else {
        SharedIdTail(id2, status2, id1, status1);
      }
    }
  }

  /** So external ids tell events apart unless one status ends that way; statuses without
      an underscore, as Meta's are, never do. */
  lemma ExternalIdInjective(id1: string, status1: string, id2: string, status2: string)
    requires !EndsWith(status1, "_" + status2) && !EndsWith(status2, "_" + status1)
    requires ExternalId(id1, status1) == ExternalId(id2, status2)
    ensures id1 == id2 && status1 == status2
  {
    if |status2| <= |status1| {
      SharedIdTail(id1, status1, id2, status2);
    } else {
      SharedIdTail(id2, status2, id1, status1);
    }
  }

  lemma TailHasUnderscore(status1: string, status2: string)
    ensures EndsWith(status1, "_" + status2) ==> '_' in status1
  {
    if EndsWith(status1, "_" + status2) {
      assert status1[|status1| - |status2| - 1..][0] == '_';
    }
  }

  /** With an underscore they can collide, and the second event is dropped as a duplicate. */
  lemma ExternalIdsCollide(s: Store)
    requires ExternalId("w_a", "b") !in s.events
    ensures var items := [Item("w_a", "b", true, true), Item("w", "a_b", true, true)];
            KeyOf(items[0]) == KeyOf(items[1]) && IngestAll(s, items, 2) == IngestAll(s, items, 1)
  {
    assert ExternalId("w_a", "b") == "w_a_b" == ExternalId("w", "a_b");
  }

  /* ---- The route: three nested loops ---- */

  function FlatChanges(changes: seq<Change>, n: nat): seq<Item>
    requires n <= |changes|
  {
    if n == 0 then [] else FlatChanges(changes, n - 1) + changes[n - 1]
  }

  function FlatEntries(entries: seq<PayloadEntry>, n: nat): seq<Item>
    requires n <= |entries|
  {
    if n == 0 then [] else FlatEntries(entries, n - 1) + FlatChanges(entries[n - 1], |entries[n - 1]|)
  }

  /** Where item k of change j of entry i comes in the payload's order. */
  function PlaceOf(entries: seq<PayloadEntry>, i: nat, j: nat, k: nat): nat
    requires i < |entries| && j < |entries[i]| && k < |entries[i][j]|
  {
    |FlatEntries(entries, i)| + |FlatChanges(entries[i], j)| + k
  }

  lemma {:induction false} FlatChangesExtend(changes: seq<Change>, m: nat, n: nat)
    requires m <= n <= |changes|
    ensures FlatChanges(changes, m) <= FlatChanges(changes, n)
  {
    if m == n {
    } else {
      FlatChangesExtend(changes, m, n - 1);
    }
  }

  lemma {:induction false} FlatEntriesExtend(entries: seq<PayloadEntry>, m: nat, n: nat)
    requires m <= n <= |entries|
    ensures FlatEntries(entries, m) <= FlatEntries(entries, n)
  {
    if m == n {
    } else {
      FlatEntriesExtend(entries, m, n - 1);
    }
  }

  /** Every item of the payload is handled, at its place. */
  lemma ItemAtPlace(entries: seq<PayloadEntry>, i: nat, j: nat, k: nat)
    requires i < |entries| && j < |entries[i]| && k < |entries[i][j]|
    ensures var all := FlatEntries(entries, |entries|);
            PlaceOf(entries, i, j, k) < |all| && all[PlaceOf(entries, i, j, k)] == entries[i][j][k]
  {
    var changes := entries[i];
    FlatChangesExtend(changes, j + 1, |changes|);
    FlatEntriesExtend(entries, i + 1, |entries|);
    var inner, all := FlatChanges(changes, |changes|), FlatEntries(entries, |entries|);
    assert FlatChanges(changes, j + 1)[|FlatChanges(changes, j)| + k] == changes[j][k];
    assert inner[|FlatChanges(changes, j)| + k] == changes[j][k];
    assert FlatEntries(entries, i + 1)[|FlatEntries(entries, i)| + (|FlatChanges(changes, j)| + k)] == changes[j][k];
  }

  lemma {:induction false} FindChange(changes: seq<Change>, n: nat, p: nat) returns (j: nat, k: nat)
    requires n <= |changes| && p < |FlatChanges(changes, n)|
    ensures j < n && k < |changes[j]| && p == |FlatChanges(changes, j)| + k
  {
    if p < |FlatChanges(changes, n - 1)| {
      j, k := FindChange(changes, n - 1, p);
    } else {
      j, k := n - 1, p - |FlatChanges(changes, n - 1)|;
    }
  }

  /** ... and nothing else is: every place is that of an item. */
  lemma {:induction false} PlaceHasItem(entries: seq<PayloadEntry>, n: nat, p: nat) returns (i: nat, j: nat, k: nat)
    requires n <= |entries| && p < |FlatEntries(entries, n)|
    ensures i < n && j < |entries[i]| && k < |entries[i][j]| && p == PlaceOf(entries, i, j, k)
  {
    if p < |FlatEntries(entries, n - 1)| {
      i, j, k := PlaceHasItem(entries, n - 1, p);
    } else {
      i := n - 1;
      j, k := FindChange(entries[i], |entries[i]|, p - |FlatEntries(entries, i)|);
    }
  }

  function IngestSeq(s: Store, items: seq<Item>): Store {
    IngestAll(s, items, |items|)
  }

  lemma {:induction false} IngestPrefix(s: Store, items: seq<Item>, more: seq<Item>, n: nat)
    requires n <= |items|
    ensures IngestAll(s, items + more, n) == IngestAll(s, items, n)
  {
    if n == 0 {
    } else {
      IngestPrefix(s, items, more, n - 1);
    }
  }

  lemma IngestOneMore(s: Store, items: seq<Item>, item: Item)
    ensures IngestSeq(s, items + [item]) == Ingest(IngestSeq(s, items), item)
  {
    IngestPrefix(s, items, [item], |items|);
  }

  class WebhookRoutes {
    var webhookEvents: set<string>
    var webhookQueue: seq<Job>

    function View(): Store
      reads this
    {
      Store(webhookEvents, webhookQueue)
    }

    constructor ()
      ensures View() == Store({}, []) && QueueOk(View())
    {
      webhookEvents, webhookQueue := {}, [];
    }

    /** POST /meta, after the signature check. */
    method Meta(entries: seq<PayloadEntry>)
      modifies this
      ensures View() == IngestSeq(old(View()), FlatEntries(entries, |entries|))
    {
      ghost var start := View();
      for i := 0 to |entries|
        invariant View() == IngestSeq(start, FlatEntries(entries, i))
      {
        var changes := entries[i];
        ghost var outer := FlatEntries(entries, i);
        assert outer + [] == outer;
        for j := 0 to |changes|
          invariant View() == IngestSeq(start, outer + FlatChanges(changes, j))
        {
          var statuses := changes[j];
          ghost var inner := outer + FlatChanges(changes, j);
          assert inner + statuses[..0] == inner;
          for k := 0 to |statuses|
            invariant View() == IngestSeq(start, inner + statuses[..k])
          {
            var item := statuses[k];
            assert inner + statuses[..k + 1] == (inner + statuses[..k]) + [item];
            IngestOneMore(start, inner + statuses[..k], item);
            if item.id != "" && item.status != "" {
              var eventIdempotencyKey := item.id + "_" + item.status;
              if item.dbUp && eventIdempotencyKey !in webhookEvents {
                webhookEvents := webhookEvents + {eventIdempotencyKey};
                if item.brokerUp {
                  webhookQueue := webhookQueue + [Job(item.id, item.status)];
                }
              }
            }
          }
          assert inner + statuses[..|statuses|] == outer + FlatChanges(changes, j + 1);
        }
      }
    }
  }
}
