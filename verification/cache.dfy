/** The entity cache: three maps keyed by 32-bit id, written only by upserts
    (a later write for an id replaces the earlier one, nothing is deleted). */
module Cache {
  import opened Base
  import opened Entities

  datatype EntityCache = EntityCache(
    users: map<Int32, User>,
    chats: map<Int32, Chat>,
    channels: map<Int32, Channel>)

  const EmptyCache := EntityCache(map[], map[], map[])

  /** Every entry is stored under its own id. */
  ghost predicate WellKeyed(c: EntityCache) {
    && KeyedBy(c.users, (u: User) => u.id)
    && KeyedBy(c.chats, (c: Chat) => c.id)
    && KeyedBy(c.channels, (c: Channel) => c.id)
  }

  /** Whether the write an item asks for (if any) is to key `k`. */
  predicate WritesKey<V>(w: Option<(Int32, V)>, k: Int32) {
    w.Some? && w.value.0 == k
  }

  /** The value of the last item that writes key `k`, if any; `pick` says
      which key and value an item writes, or that it writes nothing. */
  function LastWrite<T, V>(items: seq<T>, pick: T -> Option<(Int32, V)>, k: Int32): (r: Option<V>)
    ensures r.None? <==> forall i :: 0 <= i < |items| ==> !WritesKey(pick(items[i]), k)
    ensures r.Some? ==> exists i :: && 0 <= i < |items| && pick(items[i]) == Some((k, r.value))
                                    && forall j :: i < j < |items| ==> !WritesKey(pick(items[j]), k)
    decreases |items|
  {
    if items == [] then None
    else
      var later := LastWrite(items[1..], pick, k);
      assert forall j :: 1 <= j < |items| ==> items[j] == items[1..][j - 1];
      if later.Some? then
        assert exists i :: && 0 <= i < |items| && pick(items[i]) == Some((k, later.value))
                           && forall j :: i < j < |items| ==> !WritesKey(pick(items[j]), k) by {
          var i :| && 0 <= i < |items[1..]| && pick(items[1..][i]) == Some((k, later.value))
                   && forall j :: i < j < |items[1..]| ==> !WritesKey(pick(items[1..][j]), k);
          assert pick(items[i + 1]) == Some((k, later.value));
        }
        later
      else if WritesKey(pick(items[0]), k) then Some(pick(items[0]).value.1)
      else None
  }

  /** The item that writes `k` last decides the value of `k`. */
  lemma LastWriteWins<T, V>(items: seq<T>, pick: T -> Option<(Int32, V)>, i: int)
    requires 0 <= i < |items| && pick(items[i]).Some?
    requires forall j :: i < j < |items| ==> !WritesKey(pick(items[j]), pick(items[i]).value.0)
    ensures LastWrite(items, pick, pick(items[i]).value.0) == Some(pick(items[i]).value.1)
  {
    var k := pick(items[i]).value.0;
    var r := LastWrite(items, pick, k);
    assert WritesKey(pick(items[i]), k);
    var i' :| && 0 <= i' < |items| && pick(items[i']) == Some((k, r.value))
              && forall j :: i' < j < |items| ==> !WritesKey(pick(items[j]), k);
    assert i' == i;
  }

  /** Performs `m[key] = value` for every item that asks for a write, in
      order, as the Go loops over a response's entity lists do. */
  function Upsert<T, V>(m: map<Int32, V>, items: seq<T>, pick: T -> Option<(Int32, V)>): (r: map<Int32, V>)
    ensures forall k :: LastWrite(items, pick, k).Some? ==> k in r && r[k] == LastWrite(items, pick, k).value
    ensures forall k :: LastWrite(items, pick, k).None? ==> (k in r <==> k in m)
    ensures forall k :: LastWrite(items, pick, k).None? && k in m ==> r[k] == m[k]
    decreases |items|
  {
    if items == [] then m
    else
      var m' := match pick(items[0]) case Some((k, v)) => m[k := v] case None => m;
      Upsert(m', items[1..], pick)
  }

  /** Nothing is deleted: every key of the old map is still present. */
  lemma UpsertKeepsKeys<T, V>(m: map<Int32, V>, items: seq<T>, pick: T -> Option<(Int32, V)>)
    ensures m.Keys <= Upsert(m, items, pick).Keys
  {
    forall k | k in m ensures k in Upsert(m, items, pick) {
      if LastWrite(items, pick, k).None? { }
    }
  }

  /** Upserting the same items a second time changes nothing. */
  lemma UpsertIdempotent<T, V>(m: map<Int32, V>, items: seq<T>, pick: T -> Option<(Int32, V)>)
    ensures Upsert(Upsert(m, items, pick), items, pick) == Upsert(m, items, pick)
  {
    var once := Upsert(m, items, pick);
    var twice := Upsert(once, items, pick);
    forall k ensures (k in twice <==> k in once) && (k in once ==> twice[k] == once[k]) {
      if LastWrite(items, pick, k).None? { }
    }
  }

  /** Every value of `m` is stored under the key `key` gives it. */
  ghost predicate KeyedBy<V>(m: map<Int32, V>, key: V -> Int32) {
    forall k :: k in m ==> key(m[k]) == k
  }

  /** Writes whose values carry their own key keep a map keyed. */
  lemma UpsertKeyed<T, V>(m: map<Int32, V>, items: seq<T>, pick: T -> Option<(Int32, V)>, key: V -> Int32)
    requires KeyedBy(m, key)
    requires forall i :: 0 <= i < |items| && pick(items[i]).Some? ==> key(pick(items[i]).value.1) == pick(items[i]).value.0
    ensures KeyedBy(Upsert(m, items, pick), key)
  {
    var r := Upsert(m, items, pick);
    forall k | k in r ensures key(r[k]) == k {
      var w := LastWrite(items, pick, k);
      if w.Some? {
        var i :| 0 <= i < |items| && pick(items[i]) == Some((k, w.value))
                 && forall j :: i < j < |items| ==> !WritesKey(pick(items[j]), k);
      }
    }
  }
}
