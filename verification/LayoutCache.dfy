// The process-memory layout cache: an ordered dictionary with expiry and
// least-recently-used eviction, proved against the plain history of its operations.

module LayoutCache {
  import opened Common
  import opened Ordering

  datatype Entry = Entry(expiresAt: real, value: seq<bv8>)

  /** The operations that took effect, oldest first. */
  datatype Op =
    | Stored(key: string, entry: Entry)
    | Hit(key: string)
    | Expired(key: string)   // a read found the entry past its expiry and dropped it
    | Cleared

  predicate Touches(op: Op, key: string) {
    (op.Stored? || op.Hit?) && op.key == key
  }

  /** What the history says is stored under a key, eviction aside. */
  function LastEntry(h: seq<Op>, key: string): Option<Entry> {
    if h == [] then None
    else
      match h[|h| - 1]
      case Stored(k, entry) => if k == key then Some(entry) else LastEntry(h[..|h| - 1], key)
      case Hit(_) => LastEntry(h[..|h| - 1], key)
      case Expired(k) => if k == key then None else LastEntry(h[..|h| - 1], key)
      case Cleared => None
  }

  /** The distinct other keys touched since this key was last touched. */
  function OthersSince(h: seq<Op>, key: string): set<string> {
    if h == [] || h[|h| - 1].Cleared? || Touches(h[|h| - 1], key) then {}
    else
      OthersSince(h[..|h| - 1], key) + if h[|h| - 1].Expired? then {} else {h[|h| - 1].key}
  }

  predicate NeverExpired(h: seq<Op>) {
    forall i :: 0 <= i < |h| ==> !h[i].Expired?
  }

  /** The elements of an order, key by key from the oldest. */
  function Members(s: seq<string>): set<string> {
    if s == [] then {} else {s[0]} + Members(s[1..])
  }

  lemma {:induction false} MembersAre(s: seq<string>)
    ensures Members(s) == Elements(s) && forall x :: x in Members(s) <==> x in s
  {
    if s != [] {
      MembersAre(s[1..]);
      assert s == [s[0]] + s[1..];
    }
  }

  lemma {:induction false} MembersCount(s: seq<string>)
    requires Distinct(s)
    ensures |Members(s)| == |s|
  {
    if s != [] {
      MembersCount(s[1..]);
      MembersAre(s[1..]);
      assert forall k :: 0 <= k < |s[1..]| ==> s[1..][k] == s[k + 1];
    }
  }

  lemma {:induction false} MembersSnoc(s: seq<string>, key: string)
    ensures Members(s + [key]) == Members(s) + {key}
  {
    if s == [] {
      assert s + [key] == [key] && [key][1..] == [];
    } else {
      MembersSnoc(s[1..], key);
      assert (s + [key])[1..] == s[1..] + [key];
    }
  }

  function Without(s: seq<string>, key: string): (r: seq<string>)
    ensures Members(r) == Members(s) - {key}
    ensures forall x :: x in r ==> x in s && x != key
    ensures Distinct(s) ==> Distinct(r)
    ensures |r| <= |s| && (key in s ==> |r| < |s|)
  {
    if s == [] then []
    else
      assert s == [s[0]] + s[1..];
      if s[0] == key then Without(s[1..], key)
      else
        var rest := Without(s[1..], key);
        assert Distinct(s) ==> s[0] !in s[1..] && Distinct(s[1..]);
        assert ([s[0]] + rest)[1..] == rest;
        [s[0]] + rest
  }

  /** Oldest first: everything behind a key was touched after it; without expiry, nothing else was. */
  ghost predicate Recency(order: seq<string>, h: seq<Op>) {
    order == [] ||
    (Members(order[1..]) <= OthersSince(h, order[0])
     && (NeverExpired(h) ==> Members(order[1..]) == OthersSince(h, order[0]))
     && Recency(order[1..], h))
  }

  /** The stored dictionary refines the history. */
  ghost predicate Refines(memory: map<string, Entry>, order: seq<string>, h: seq<Op>, capacity: nat) {
    && Distinct(order) && Members(order) == memory.Keys
    && (forall k :: k in memory ==> LastEntry(h, k) == Some(memory[k]))
    && Recency(order, h)
    && (forall k {:trigger OthersSince(h, k)} :: LastEntry(h, k).Some? && |OthersSince(h, k)| < capacity ==> k in memory)
  }

  lemma SnocOp(h: seq<Op>, op: Op)
    ensures (h + [op])[..|h + [op]| - 1] == h && (h + [op])[|h + [op]| - 1] == op
    ensures NeverExpired(h + [op]) <==> NeverExpired(h) && !op.Expired?
  {
    if NeverExpired(h + [op]) {
      forall i | 0 <= i < |h| ensures !h[i].Expired? { assert !(h + [op])[i].Expired?; }
      assert !(h + [op])[|h|].Expired?;
    }
  }

  /** Moving a key to the end keeps the recency order, once the touch is recorded. */
  lemma {:induction false} TouchKeepsRecency(order: seq<string>, h: seq<Op>, op: Op, key: string)
    requires Recency(order, h) && Touches(op, key)
    ensures Recency(Without(order, key) + [key], h + [op])
  {
    SnocOp(h, op);
    if order == [] {
      assert Without(order, key) + [key] == [key] && [key][1..] == [];
    } else {
      TouchKeepsRecency(order[1..], h, op, key);
      if order[0] != key {
        TouchKeepsHead(order, h, op, key);
      }
    }
  }

  lemma TouchKeepsHead(order: seq<string>, h: seq<Op>, op: Op, key: string)
    requires order != [] && order[0] != key && Recency(order, h) && Touches(op, key)
    requires Recency(Without(order[1..], key) + [key], h + [op])
    ensures Recency(Without(order, key) + [key], h + [op])
  {
    SnocOp(h, op);
    var kept := Without(order[1..], key);
    var moved := Without(order, key) + [key];
    assert moved[0] == order[0] && moved[1..] == kept + [key];
    MembersSnoc(kept, key);
    assert OthersSince(h + [op], order[0]) == OthersSince(h, order[0]) + {key};
  }

  /** Dropping a key keeps the one-sided order; an expiry gives up exactness anyway. */
  lemma {:induction false} ExpiryKeepsRecency(order: seq<string>, h: seq<Op>, key: string)
    requires Recency(order, h)
    ensures Recency(Without(order, key), h + [Expired(key)])
  {
    SnocOp(h, Expired(key));
    if order != [] {
      ExpiryKeepsRecency(order[1..], h, key);
      if order[0] != key {
        assert Without(order, key)[1..] == Without(order[1..], key);
      }
    }
  }

  /** A touch that leaves every other key's entry alone keeps the refinement. */
  lemma TouchRefines(memory: map<string, Entry>, order: seq<string>, h: seq<Op>, capacity: nat, key: string, op: Op, next: map<string, Entry>)
    requires Refines(memory, order, h, capacity) && Touches(op, key)
    requires next.Keys == memory.Keys + {key}
    requires forall k :: k in next ==> LastEntry(h + [op], k) == Some(next[k])
    requires forall k :: k != key ==> LastEntry(h + [op], k) == LastEntry(h, k)
    ensures Refines(next, Without(order, key) + [key], h + [op], capacity)
  {
    SnocOp(h, op);
    TouchKeepsRecency(order, h, op, key);
    MembersSnoc(Without(order, key), key);
    forall k | LastEntry(h + [op], k).Some? && |OthersSince(h + [op], k)| < capacity ensures k in next {
      if k != key {
        SubsetIsSmaller(OthersSince(h, k), OthersSince(h + [op], k));
      }
    }
  }

  lemma StoreRefines(memory: map<string, Entry>, order: seq<string>, h: seq<Op>, capacity: nat, key: string, entry: Entry)
    requires Refines(memory, order, h, capacity)
    ensures Refines(memory[key := entry], Without(order, key) + [key], h + [Stored(key, entry)], capacity)
  {
    SnocOp(h, Stored(key, entry));
    TouchRefines(memory, order, h, capacity, key, Stored(key, entry), memory[key := entry]);
  }

  lemma HitRefines(memory: map<string, Entry>, order: seq<string>, h: seq<Op>, capacity: nat, key: string)
    requires Refines(memory, order, h, capacity) && key in memory
    ensures Refines(memory, Without(order, key) + [key], h + [Hit(key)], capacity)
  {
    SnocOp(h, Hit(key));
    TouchRefines(memory, order, h, capacity, key, Hit(key), memory);
  }

  lemma ExpiryForgets(h: seq<Op>, key: string, k: string)
    ensures OthersSince(h + [Expired(key)], k) == OthersSince(h, k)
    ensures LastEntry(h + [Expired(key)], k) == if k == key then None else LastEntry(h, k)
  {
    SnocOp(h, Expired(key));
  }

  lemma ExpiryRefines(memory: map<string, Entry>, order: seq<string>, h: seq<Op>, capacity: nat, key: string)
    requires Refines(memory, order, h, capacity)
    ensures Refines(memory - {key}, Without(order, key), h + [Expired(key)], capacity)
  {
    var longer := h + [Expired(key)];
    ExpiryKeepsRecency(order, h, key);
    forall k | k in memory - {key} ensures LastEntry(longer, k) == Some(memory[k]) {
      ExpiryForgets(h, key, k);
    }
    forall k | LastEntry(longer, k).Some? && |OthersSince(longer, k)| < capacity ensures k in memory - {key} {
      ExpiryForgets(h, key, k);
    }
  }

  lemma EvictionRefines(memory: map<string, Entry>, order: seq<string>, h: seq<Op>, capacity: nat)
    requires Refines(memory, order, h, capacity) && |order| > capacity
    ensures Refines(memory - {order[0]}, order[1..], h, capacity)
  {
    MembersCount(order[1..]);
    MembersAre(order[1..]);
    SubsetIsSmaller(Members(order[1..]), OthersSince(h, order[0]));
  }

  lemma SubsetIsSmaller<T>(s: set<T>, t: set<T>)
    requires s <= t
    ensures |s| <= |t|
  {
    assert t == s + (t - s);
  }

  /** In a history without expiry, presence is exactly a stored entry with fewer than capacity other keys touched since. */
  lemma PresenceIsRecency(memory: map<string, Entry>, order: seq<string>, h: seq<Op>, capacity: nat, key: string)
    requires Refines(memory, order, h, capacity) && |order| <= capacity && NeverExpired(h)
    ensures key in memory <==> LastEntry(h, key).Some? && |OthersSince(h, key)| < capacity
  {
    if key in memory {
      MembersAre(order);
      FewerOthers(order, h, key);
    }
  }

  lemma {:induction false} FewerOthers(order: seq<string>, h: seq<Op>, key: string)
    requires Recency(order, h) && Distinct(order) && NeverExpired(h) && key in order
    ensures |OthersSince(h, key)| < |order|
  {
    if order[0] == key {
      MembersCount(order[1..]);
    } else {
      FewerOthers(order[1..], h, key);
    }
  }

  // ----- Keys -----

  function CacheKey(tenant: string, digest: string): string {
    "t:" + tenant + ":layout:" + digest
  }

  predicate IsHex(s: string) {
    forall i :: 0 <= i < |s| ==> '0' <= s[i] <= '9' || 'a' <= s[i] <= 'f'
  }

  /** Tenants never share a key: the digest holds no colon, so the key can be read back. */
  lemma CacheKeyInjective(tenant: string, digest: string, tenant': string, digest': string)
    requires IsHex(digest) && IsHex(digest') && CacheKey(tenant, digest) == CacheKey(tenant', digest')
    ensures tenant == tenant' && digest == digest'
  {
    var key := CacheKey(tenant, digest);
    NoShorterDigest(tenant, digest, tenant', digest');
    NoShorterDigest(tenant', digest', tenant, digest);
    assert |digest| == |digest'|;
    assert digest == key[|key| - |digest|..] == digest';
    assert tenant == key[2..2 + |tenant|] == tenant';
  }

  lemma DigestHasNoColon(tenant: string, digest: string, i: int)
    requires IsHex(digest) && |CacheKey(tenant, digest)| - |digest| <= i < |CacheKey(tenant, digest)|
    ensures CacheKey(tenant, digest)[i] != ':'
  {
    assert CacheKey(tenant, digest)[i] == digest[i - (|CacheKey(tenant, digest)| - |digest|)];
  }

  lemma NoShorterDigest(tenant: string, digest: string, tenant': string, digest': string)
    requires IsHex(digest') && CacheKey(tenant, digest) == CacheKey(tenant', digest')
    ensures |digest| >= |digest'|
  {
    var key := CacheKey(tenant, digest);
    var colon := |key| - |digest| - 1;
    assert key[colon] == ':';
    if colon >= |key| - |digest'| {
      DigestHasNoColon(tenant', digest', colon);
    }
  }

  // ----- The cache -----

  /** The last entries of an order, at most n of them. */
  function Newest(order: seq<string>, n: nat): seq<string> {
    if |order| <= n then order else Newest(order[1..], n)
  }

  class MemoryCache {
    const ttl: int
    const maxEntries: nat
    var memory: map<string, Entry>
    var order: seq<string>
    ghost var history: seq<Op>

    /** maxEntries is at least one, whatever the setting says. */
    constructor (ttl: int, configuredMaxEntries: int)
      ensures Valid() && history == [] && this.ttl == ttl
      ensures maxEntries == if configuredMaxEntries < 1 then 1 else configuredMaxEntries
    {
      this.ttl := ttl;
      this.maxEntries := if configuredMaxEntries < 1 then 1 else configuredMaxEntries;
      memory, order, history := map[], [], [];
    }

    ghost predicate Valid()
      reads this
    {
      maxEntries >= 1 && Refines(memory, order, history, maxEntries) && |order| <= maxEntries
    }

    /** A read; acquired says whether the lock was obtained before the deadline, now was read before locking. */
    method Get(tenant: string, digest: string, now: real, acquired: bool) returns (r: Option<seq<bv8>>)
      requires Valid()
      modifies this
      ensures Valid()
      ensures var key := CacheKey(tenant, digest);
              var last := LastEntry(old(history), key);
              && (r.Some? ==> last.Some? && last.value.value == r.value && now < last.value.expiresAt)
              && (acquired && last.Some? && now < last.value.expiresAt && |OthersSince(old(history), key)| < maxEntries ==> r.Some?)
              && history == (if r.Some? then old(history) + [Hit(key)]
                             else if acquired && key in old(memory) then old(history) + [Expired(key)] else old(history))
              && memory == (if r.None? && acquired then old(memory) - {key} else old(memory))
    {
      hide Recency, CacheKey, Newest, Distinct, OthersSince, LastEntry;
      var key := CacheKey(tenant, digest);
      if !acquired {
        return None;
      }
      if key !in memory {
        return None;
      }
      var entry := memory[key];
      if entry.expiresAt <= now {
        ExpiryRefines(memory, order, history, maxEntries, key);
        memory, order, history := memory - {key}, Without(order, key), history + [Expired(key)];
        return None;
      }
      HitRefines(memory, order, history, maxEntries, key);
      MembersAre(order);
      order, history := Without(order, key) + [key], history + [Hit(key)];
      return Some(entry.value);
    }

    /** A write; it is skipped when the budget is too short or the lock is not obtained. */
    method Set(tenant: string, digest: string, value: seq<bv8>, now: real, budgeted: bool, acquired: bool)
      requires Valid()
      modifies this
      ensures Valid() && |memory| <= maxEntries
      ensures var key := CacheKey(tenant, digest);
              if budgeted && acquired
              then history == old(history) + [Stored(key, Entry(now + ttl as real, value))] && key in memory
                && order == Newest(Without(old(order), key) + [key], maxEntries)
              else history == old(history) && memory == old(memory) && order == old(order)
    {
      if !budgeted || !acquired {
        OrderCountsKeys(memory, order, history, maxEntries);
        return;
      }
      var key := CacheKey(tenant, digest);
      Insert(key, Entry(now + ttl as real, value));
      Evict(key);
    }

    method Insert(key: string, entry: Entry)
      requires Valid()
      modifies this
      ensures Refines(memory, order, history, maxEntries) && order == Without(old(order), key) + [key]
      ensures history == old(history) + [Stored(key, entry)]
    {
      StoreRefines(memory, order, history, maxEntries, key, entry);
      ghost var before := memory;
      memory, order := memory - {key}, Without(order, key);
      memory, order, history := memory[key := entry], order + [key], history + [Stored(key, entry)];
      assert memory == before[key := entry];
    }

    /** popitem(last=False) until the size fits; the key just written is the newest, so it stays. */
    method Evict(ghost key: string)
      requires Refines(memory, order, history, maxEntries)
      requires history != [] && Touches(history[|history| - 1], key) && LastEntry(history, key).Some? && maxEntries >= 1
      modifies this`memory, this`order
      ensures Valid() && |memory| <= maxEntries && key in memory && order == Newest(old(order), maxEntries)
    {
      OrderCountsKeys(memory, order, history, maxEntries);
      while |memory| > maxEntries
        invariant Refines(memory, order, history, maxEntries) && |memory| == |order|
        invariant Newest(order, maxEntries) == Newest(old(order), maxEntries)
        decreases |memory|
      {
        EvictionRefines(memory, order, history, maxEntries);
        memory, order := memory - {order[0]}, order[1..];
        OrderCountsKeys(memory, order, history, maxEntries);
      }
      assert OthersSince(history, key) == {};
    }

    method Clear()
      requires Valid()
      modifies this
      ensures Valid() && memory == map[] && history == old(history) + [Cleared]
    {
      SnocOp(history, Cleared);
      memory, order, history := map[], [], history + [Cleared];
    }
  }

  lemma OrderCountsKeys(memory: map<string, Entry>, order: seq<string>, h: seq<Op>, capacity: nat)
    requires Refines(memory, order, h, capacity)
    ensures |memory| == |order|
  {
    MembersCount(order);
    assert |memory| == |memory.Keys|;
  }
}
