/**
 SIP server location: ordering SRV records by the rules of RFC 2782, and trying them in
 that order (section 4 of RFC 3263). The random generator is any source of numbers: `draws`
 gives the one it produces at each call.
 */
module Resolve {
  import opened Wrappers
  import opened Bytes

  datatype SrvRecord = SrvRecord(priority: Word16, weight: Word16, port: Word16, target: string)

  // ---- Stable sorting ----

  function Insert<T>(item: T, key: T -> int, sorted: seq<T>): (r: seq<T>)
    ensures |r| == |sorted| + 1
  {
    if sorted == [] then [item]
    else if key(item) <= key(sorted[0]) then [item] + sorted
    else [sorted[0]] + Insert(item, key, sorted[1..])
  }

  /** A stable sort: items of equal keys keep their order. */
  function SortByKey<T>(items: seq<T>, key: T -> int): (r: seq<T>)
    ensures |r| == |items|
  {
    if items == [] then [] else Insert(items[0], key, SortByKey(items[1..], key))
  }

  lemma {:induction false} InsertKeeps<T>(item: T, key: T -> int, sorted: seq<T>)
    ensures multiset(Insert(item, key, sorted)) == multiset(sorted) + multiset{item}
  {
    if sorted != [] && key(item) > key(sorted[0]) {
      InsertKeeps(item, key, sorted[1..]);
      assert sorted == [sorted[0]] + sorted[1..];
    }
  }

  lemma {:induction false} SortKeeps<T>(items: seq<T>, key: T -> int)
    ensures multiset(SortByKey(items, key)) == multiset(items)
  {
    if items == [] {
    } else {
      SortKeeps(items[1..], key);
      InsertKeeps(items[0], key, SortByKey(items[1..], key));
      assert items == [items[0]] + items[1..];
    }
  }

  predicate Ascends<T>(items: seq<T>, key: T -> int) {
    forall i, j :: 0 <= i < j < |items| ==> key(items[i]) <= key(items[j])
  }

  /** The items of one key, in order. */
  function Of<T>(items: seq<T>, key: T -> int, k: int): seq<T> {
    if items == [] then [] else (if key(items[0]) == k then [items[0]] else []) + Of(items[1..], key, k)
  }

  lemma {:induction false} InsertAscends<T>(item: T, key: T -> int, sorted: seq<T>)
    requires Ascends(sorted, key)
    ensures Ascends(Insert(item, key, sorted), key)
  {
    if sorted != [] && key(item) > key(sorted[0]) {
      InsertAscends(item, key, sorted[1..]);
      InsertKeeps(item, key, sorted[1..]);
      var rest := Insert(item, key, sorted[1..]);
      forall j | 0 <= j < |rest| ensures key(sorted[0]) <= key(rest[j]) {
        assert rest[j] in multiset(rest);
        assert rest[j] == item || rest[j] in sorted[1..];
      }
    }
  }

  /** A new item goes before the items of its key, and disturbs no others. */
  lemma {:induction false} InsertIsStable<T>(item: T, key: T -> int, sorted: seq<T>, k: int)
    ensures Of(Insert(item, key, sorted), key, k) == (if key(item) == k then [item] else []) + Of(sorted, key, k)
  {
    var r := Insert(item, key, sorted);
    if sorted == [] || key(item) <= key(sorted[0]) {
      assert r[1..] == sorted;
    } else {
      InsertIsStable(item, key, sorted[1..], k);
      assert r[1..] == Insert(item, key, sorted[1..]);
      if key(sorted[0]) == k {
        assert key(item) != k;
      }
    }
  }

  lemma {:induction false} SortAscends<T>(items: seq<T>, key: T -> int)
    ensures Ascends(SortByKey(items, key), key)
  {
    if items == [] {
    } else {
      SortAscends(items[1..], key);
      InsertAscends(items[0], key, SortByKey(items[1..], key));
    }
  }

  lemma {:induction false} SortIsStable<T>(items: seq<T>, key: T -> int, k: int)
    ensures Of(SortByKey(items, key), key, k) == Of(items, key, k)
  {
    if items == [] {
    } else {
      SortIsStable(items[1..], key, k);
      InsertIsStable(items[0], key, SortByKey(items[1..], key), k);
    }
  }

  // ---- The weighted draw ----

  function PriorityOf(): SrvRecord -> int { (r: SrvRecord) => r.priority }

  /** Zero-weight records go first. */
  function WeightOrder(): SrvRecord -> int { (r: SrvRecord) => if r.weight != 0 then 1 else 0 }

  function TotalWeight(pool: seq<SrvRecord>): nat {
    if pool == [] then 0 else pool[0].weight + TotalWeight(pool[1..])
  }

  /** The sum of the first n weights. */
  function Running(pool: seq<SrvRecord>, n: nat): nat
    requires n <= |pool|
  {
    if n == 0 then 0 else Running(pool, n - 1) + pool[n - 1].weight
  }

  /** Index k is where the running sum first reaches the roll. */
  predicate Reaches(pool: seq<SrvRecord>, roll: nat, k: nat) {
    && k < |pool| && Running(pool, k + 1) >= roll
    && forall j :: 0 < j <= k ==> Running(pool, j) < roll
  }

  lemma {:induction false} RunningTotal(pool: seq<SrvRecord>, n: nat)
    requires n <= |pool|
    ensures Running(pool, n) + TotalWeight(pool[n..]) == TotalWeight(pool)
  {
    if n == 0 {
      assert pool[0..] == pool;
    } else {
      RunningTotal(pool, n - 1);
      assert pool[n - 1..][1..] == pool[n..];
    }
  }

  lemma {:induction false} RunningGrows(pool: seq<SrvRecord>, i: nat, j: nat)
    requires i <= j <= |pool|
    ensures Running(pool, i) <= Running(pool, j)
    decreases j - i
  {
    if i < j {
      RunningGrows(pool, i, j - 1);
    }
  }

  /** The running-sum walk: a roll no greater than the total always finds its index. */
  function Walk(pool: seq<SrvRecord>, roll: nat, from: nat): (k: nat)
    requires from < |pool| && roll <= TotalWeight(pool) && forall j :: 0 < j <= from ==> Running(pool, j) < roll
    ensures Reaches(pool, roll, k)
    decreases |pool| - from
  {
    if Running(pool, from + 1) >= roll then from
    else
      assert from + 1 < |pool| by {
        RunningTotal(pool, |pool|);
        assert pool[|pool|..] == [];
      }
      Walk(pool, roll, from + 1)
  }

  /** The index a draw picks from a class that is not exhausted. */
  function PickOf(pool: seq<SrvRecord>, draw: nat): (k: nat)
    requires pool != []
    ensures k < |pool|
  {
    var total := TotalWeight(pool);
    if total == 0 then draw % |pool| else Walk(pool, draw % (total + 1), 0)
  }

  method SumWeights(pool: seq<SrvRecord>) returns (total: nat)
    ensures total == TotalWeight(pool)
  {
    total := 0;
    var i := 0;
    while i < |pool|
      invariant i <= |pool| && total + TotalWeight(pool[i..]) == TotalWeight(pool)
    {
      assert pool[i..][1..] == pool[i + 1..];
      total := total + pool[i].weight;
      i := i + 1;
    }
  }

  method Pick(pool: seq<SrvRecord>, draw: nat) returns (pick: nat)
    requires pool != []
    ensures pick == PickOf(pool, draw)
  {
    var total := SumWeights(pool);
    if total == 0 {
      return draw % |pool|;
    }
    var roll := draw % (total + 1);
    var running, i := 0, 0;
    RunningTotal(pool, |pool|);
    assert pool[|pool|..] == [];
    while i < |pool|
      invariant i <= |pool| && running == Running(pool, i) && (i == |pool| ==> running < roll)
      invariant forall j :: 0 < j <= i ==> Running(pool, j) < roll
      invariant i < |pool| ==> Walk(pool, roll, i) == Walk(pool, roll, 0)
    {
      running := running + pool[i].weight;
      if running >= roll {
        return i;
      }
      i := i + 1;
    }
    assert false;
  }

  function Without<T>(items: seq<T>, i: nat): (r: seq<T>)
    requires i < |items|
    ensures |r| == |items| - 1
  {
    items[..i] + items[i + 1..]
  }

  /** A class drawn out without replacement, one draw a record. */
  function DrawOut(pool: seq<SrvRecord>, draws: nat -> nat, at: nat): (drawn: seq<SrvRecord>)
    ensures |drawn| == |pool|
    decreases |pool|
  {
    if pool == [] then []
    else
      var k := PickOf(pool, draws(at));
      [pool[k]] + DrawOut(Without(pool, k), draws, at + 1)
  }

  /** The end of the priority class that begins at `start`, found from `from` on. */
  function ClassEnd(sorted: seq<SrvRecord>, start: nat, from: nat): (end: nat)
    requires start < from <= |sorted|
    requires forall i :: start <= i < from ==> sorted[i].priority == sorted[start].priority
    ensures from <= end <= |sorted|
    ensures forall i :: start <= i < end ==> sorted[i].priority == sorted[start].priority
    ensures end < |sorted| ==> sorted[end].priority != sorted[start].priority
    decreases |sorted| - from
  {
    if from < |sorted| && sorted[from].priority == sorted[start].priority then ClassEnd(sorted, start, from + 1)
        else from
  }

  function ZerosFirst(records: seq<SrvRecord>): (r: seq<SrvRecord>)
    ensures |r| == |records|
  {
    SortByKey(records, WeightOrder())
  }

  /** The priority classes of sorted records from `start` on, drawn out one after the other. */
  function DrawClasses(sorted: seq<SrvRecord>, start: nat, draws: nat -> nat): (drawn: seq<SrvRecord>)
    requires start <= |sorted|
    ensures |drawn| == |sorted| - start
    decreases |sorted| - start
  {
    if start == |sorted| then []
    else
      var end := ClassEnd(sorted, start, start + 1);
      DrawOut(ZerosFirst(sorted[start..end]), draws, start) + DrawClasses(sorted, end, draws)
  }

  lemma {:induction false} DrawOutKeeps(pool: seq<SrvRecord>, draws: nat -> nat, at: nat)
    ensures multiset(DrawOut(pool, draws, at)) == multiset(pool)
    decreases |pool|
  {
    hide PickOf;
    if pool == [] {
    } else {
      var k := PickOf(pool, draws(at));
      DrawOutKeeps(Without(pool, k), draws, at + 1);
      assert pool == pool[..k] + [pool[k]] + pool[k + 1..];
    }
  }

  /** The first class, then the others. */
  lemma DrawClassesStep(sorted: seq<SrvRecord>, start: nat, draws: nat -> nat)
    requires start <= |sorted|
    ensures start == |sorted| ==> DrawClasses(sorted, start, draws) == []
    ensures start < |sorted| ==>
      var end := ClassEnd(sorted, start, start + 1);
      DrawClasses(sorted, start, draws)
          == DrawOut(ZerosFirst(sorted[start..end]), draws, start) + DrawClasses(sorted, end, draws)
  {
  }

  lemma {:induction false} DrawClassesKeeps(sorted: seq<SrvRecord>, start: nat, draws: nat -> nat)
    requires start <= |sorted|
    ensures multiset(DrawClasses(sorted, start, draws)) == multiset(sorted[start..])
    decreases |sorted| - start
  {
    hide DrawOut, SortByKey, ClassEnd, DrawClasses;
    DrawClassesStep(sorted, start, draws);
    if start < |sorted| {
      var end := ClassEnd(sorted, start, start + 1);
      var first, rest := DrawOut(ZerosFirst(sorted[start..end]), draws, start), DrawClasses(sorted, end, draws);
      DrawOutKeeps(ZerosFirst(sorted[start..end]), draws, start);
      SortKeeps(sorted[start..end], WeightOrder());
      DrawClassesKeeps(sorted, end, draws);
      assert multiset(first + rest) == multiset(first) + multiset(rest);
      assert sorted[start..] == sorted[start..end] + sorted[end..];
    }
  }

  function OrderOf(records: seq<SrvRecord>, draws: nat -> nat): seq<SrvRecord> {
    DrawClasses(SortByKey(records, PriorityOf()), 0, draws)
  }

  lemma Regroup<T>(a: seq<T>, b: seq<T>, c: seq<T>)
    ensures a + (b + c) == (a + b) + c
  {
  }

  method FindClassEnd(sorted: seq<SrvRecord>, start: nat) returns (end: nat)
    requires start < |sorted|
    ensures end == ClassEnd(sorted, start, start + 1)
  {
    end := start + 1;
    while end < |sorted| && sorted[end].priority == sorted[start].priority
      invariant start < end <= |sorted|
      invariant forall i :: start <= i < end ==> sorted[i].priority == sorted[start].priority
      invariant ClassEnd(sorted, start, end) == ClassEnd(sorted, start, start + 1)
    {
      end := end + 1;
    }
  }

  /** The class's own loop: each draw takes one record out of what is left. */
  method DrawPool(pool: seq<SrvRecord>, draws: nat -> nat, before: seq<SrvRecord>) returns (ordered: seq<SrvRecord>)
    ensures ordered == before + DrawOut(pool, draws, |before|)
  {
    hide PickOf, Without;
    ordered := before;
    var left := pool;
    ghost var all := before + DrawOut(pool, draws, |before|);
    while left != []
      invariant all == ordered + DrawOut(left, draws, |ordered|)
      decreases |left|
    {
      var pick := Pick(left, draws(|ordered|));
      ghost var rest := DrawOut(Without(left, pick), draws, |ordered| + 1);
      assert all == ordered + ([left[pick]] + rest);
      assert ordered + ([left[pick]] + rest) == ordered + [left[pick]] + rest;
      ordered := ordered + [left[pick]];
      left := Without(left, pick);
    }
    assert ordered + [] == ordered;
  }

  method OrderCandidates(records: seq<SrvRecord>, draws: nat -> nat) returns (ordered: seq<SrvRecord>)
    ensures ordered == OrderOf(records, draws)
  {
    hide DrawOut, ZerosFirst, SortByKey, ClassEnd, DrawClasses;
    var sorted := SortByKey(records, PriorityOf());
    ordered := [];
    assert [] + OrderOf(records, draws) == OrderOf(records, draws);
    var start := 0;
    while start < |sorted|
      invariant start <= |sorted| && |ordered| == start
      invariant OrderOf(records, draws) == ordered + DrawClasses(sorted, start, draws)
    {
      var end := FindClassEnd(sorted, start);
      var pool := ZerosFirst(sorted[start..end]);
      DrawClassesStep(sorted, start, draws);
      Regroup(ordered, DrawOut(pool, draws, start), DrawClasses(sorted, end, draws));
      ordered := DrawPool(pool, draws, ordered);
      start := end;
    }
    DrawClassesStep(sorted, start, draws);
    assert ordered + [] == ordered;
  }

  lemma ZerosFirstKeeps(records: seq<SrvRecord>)
    ensures multiset(ZerosFirst(records)) == multiset(records)
  {
    SortKeeps(records, WeightOrder());
  }

  lemma PutTogether(first: seq<SrvRecord>, rest: seq<SrvRecord>, priority: Word16)
    requires forall i :: 0 <= i < |first| ==> first[i].priority == priority
    requires forall j :: 0 <= j < |rest| ==> priority <= rest[j].priority
    requires Ascends(rest, PriorityOf())
    ensures Ascends(first + rest, PriorityOf())
  {
    var all := first + rest;
    forall i, j | 0 <= i < j < |all| ensures PriorityOf()(all[i]) <= PriorityOf()(all[j]) {
      if i >= |first| {
        assert all[i] == rest[i - |first|] && all[j] == rest[j - |first|];
        assert PriorityOf()(rest[i - |first|]) <= PriorityOf()(rest[j - |first|]);
      }
    }
  }

  lemma {:induction false} ClassesAscend(sorted: seq<SrvRecord>, start: nat, draws: nat -> nat)
    requires Ascends(sorted, PriorityOf()) && start <= |sorted|
    ensures Ascends(DrawClasses(sorted, start, draws), PriorityOf())
    decreases |sorted| - start
  {
    hide DrawOut, ZerosFirst;
    if start < |sorted| {
      var end := ClassEnd(sorted, start, start + 1);
      var first := DrawOut(ZerosFirst(sorted[start..end]), draws, start);
      var rest := DrawClasses(sorted, end, draws);
      ClassesAscend(sorted, end, draws);
      DrawOutKeeps(ZerosFirst(sorted[start..end]), draws, start);
      ZerosFirstKeeps(sorted[start..end]);
      DrawClassesKeeps(sorted, end, draws);
      forall i | 0 <= i < |first| ensures first[i].priority == sorted[start].priority {
        assert first[i] in multiset(first);
        assert first[i] in sorted[start..end];
      }
      forall j | 0 <= j < |rest| ensures sorted[start].priority <= rest[j].priority {
        assert rest[j] in multiset(rest);
        assert rest[j] in sorted[end..];
        var i :| end <= i < |sorted| && sorted[i] == rest[j];
        assert PriorityOf()(sorted[start]) <= PriorityOf()(sorted[i]);
      }
      PutTogether(first, rest, sorted[start].priority);
    }
  }

  // ---- What the order promises ----

  /** Nothing is lost or invented, and no record comes before one of a lower priority number. */
  lemma OrderKeepsPriority(records: seq<SrvRecord>, draws: nat -> nat)
    ensures multiset(OrderOf(records, draws)) == multiset(records)
    ensures Ascends(OrderOf(records, draws), PriorityOf())
  {
    SortAscends(records, PriorityOf());
    SortKeeps(records, PriorityOf());
    DrawClassesKeeps(SortByKey(records, PriorityOf()), 0, draws);
    assert SortByKey(records, PriorityOf())[0..] == SortByKey(records, PriorityOf());
    ClassesAscend(SortByKey(records, PriorityOf()), 0, draws);
  }

  // ---- The odds ----

  /** The rolls from 0 to the total weight that pick a record. */
  function RollsFor(pool: seq<SrvRecord>, k: nat): set<nat>
    requires TotalWeight(pool) > 0
  {
    set roll: nat | 0 <= roll <= TotalWeight(pool) && Walk(pool, roll, 0) == k
  }

  /** The numbers from `from` up to but not including `from + n`. */
  function Interval(from: nat, n: nat): (s: set<nat>)
    ensures |s| == n && forall x :: x in s <==> from <= x < from + n
  {
    if n == 0 then {} else Interval(from, n - 1) + {from + n - 1}
  }

  /** Two indices cannot both be where the running sum first reaches a roll. */
  lemma ReachesOnce(pool: seq<SrvRecord>, roll: nat, i: nat, j: nat)
    requires Reaches(pool, roll, i) && Reaches(pool, roll, j)
    ensures i == j
  {
  }

  /** A roll picks k exactly when it lies in k's share of the running sum; the first share has zero too. */
  lemma RollPicks(pool: seq<SrvRecord>, roll: nat, k: nat)
    requires TotalWeight(pool) > 0 && roll <= TotalWeight(pool) && k < |pool|
    ensures Walk(pool, roll, 0) == k <==> (k == 0 || Running(pool, k) < roll) && roll <= Running(pool, k + 1)
  {
    var w := Walk(pool, roll, 0);
    if (k == 0 || Running(pool, k) < roll) && roll <= Running(pool, k + 1) {
      forall j | 0 < j <= k ensures Running(pool, j) < roll {
        RunningGrows(pool, j, k);
      }
      ReachesOnce(pool, roll, w, k);
    }
  }

  /**
   Exact odds: of the total+1 rolls, each record is picked by as many as its weight, and
   the record in first position by one more. So of the records without weight only one in
   first position can be drawn while any weight is left.
   */
  lemma OddsAreWeights(pool: seq<SrvRecord>, k: nat)
    requires TotalWeight(pool) > 0 && k < |pool|
    ensures |RollsFor(pool, k)| == pool[k].weight + (if k == 0 then 1 else 0)
  {
    RunningTotal(pool, k + 1);
    var from := if k == 0 then 0 else Running(pool, k) + 1;
    var size := pool[k].weight + (if k == 0 then 1 else 0);
    forall roll: nat ensures roll in RollsFor(pool, k) <==> roll in Interval(from, size) {
      if roll <= TotalWeight(pool) {
        RollPicks(pool, roll, k);
      }
    }
    assert RollsFor(pool, k) == Interval(from, size);
  }

  /** Every roll picks some record, so the odds add up to total+1. */
  lemma EveryRollPicks(pool: seq<SrvRecord>, roll: nat)
    requires TotalWeight(pool) > 0 && roll <= TotalWeight(pool)
    ensures exists k :: 0 <= k < |pool| && roll in RollsFor(pool, k)
  {
    var k := Walk(pool, roll, 0);
    assert roll in RollsFor(pool, k);
  }

  predicate ZerosLead(pool: seq<SrvRecord>) {
    forall i, j :: 0 <= i < j < |pool| && pool[j].weight == 0 ==> pool[i].weight == 0
  }

  lemma ClassZerosLead(records: seq<SrvRecord>)
    ensures ZerosLead(ZerosFirst(records))
  {
    SortAscends(records, WeightOrder());
    var r := ZerosFirst(records);
    forall i, j | 0 <= i < j < |r| && r[j].weight == 0 ensures r[i].weight == 0 {
      assert WeightOrder()(r[i]) <= WeightOrder()(r[j]);
    }
  }

  /** Drawing a record leaves the records without weight in front. */
  lemma ZerosStillLead(pool: seq<SrvRecord>, k: nat)
    requires ZerosLead(pool) && k < |pool|
    ensures ZerosLead(Without(pool, k))
  {
    var r := Without(pool, k);
    assert forall i :: 0 <= i < |r| ==> r[i] == (if i < k then pool[i] else pool[i + 1]);
  }

  /**
   So in a class that still has weight, a record without weight is drawn only if it is the
   first of the class, and only by the roll zero.
   */
  lemma OnlyTheFirstWithoutWeight(pool: seq<SrvRecord>, draw: nat)
    requires pool != [] && TotalWeight(pool) > 0
    ensures var k := PickOf(pool, draw);
            pool[k].weight == 0 ==> k == 0 && draw % (TotalWeight(pool) + 1) == 0
  {
    var roll := draw % (TotalWeight(pool) + 1);
    var k := PickOf(pool, draw);
    RollPicks(pool, roll, k);
    assert Running(pool, k + 1) == Running(pool, k) + pool[k].weight;
  }

  // ---- Trying the candidates ----

  datatype SocketAddr = SocketAddr(ip: string, port: Word16)

  datatype Transport = Udp | Tcp | Tls

  datatype Account = Account(server: string, port: Option<Word16>, transport: Transport) {
    function PortOrDefault(): Word16 {
      match port case Some(p) => p case None => if transport.Tls? then 5061 else 5060
    }
  }

  /** DNS as answers to questions: SRV records, addresses, and which names are IP literals. */
  datatype Dns = Dns(
    srv: string -> Result<seq<SrvRecord>, string>,
    lookup: (string, Word16) -> Result<Option<SocketAddr>, string>,
    isIpLiteral: string -> bool
  )

  datatype LocationPlan = Direct(host: string, port: Word16) | Srv(name: string, host: string, port: Word16)

  function LocationPlanOf(dns: Dns, account: Account): LocationPlan {
    if account.port.Some? || dns.isIpLiteral(account.server) then Direct(account.server, account.PortOrDefault())
    else
      var service := match account.transport case Udp => "_sip._udp" case Tcp => "_sip._tcp" case Tls => "_sips._tcp";
      Srv(service + "." + account.server, account.server, account.PortOrDefault())
  }

  /**
   An explicit port or an IP literal is taken as it is; any other name is asked for by SRV,
   under the service of its transport, and falls back on the port of its transport.
   */
  lemma WhatIsAskedFor(dns: Dns, account: Account)
    ensures LocationPlanOf(dns, account).Direct? <==> account.port.Some? || dns.isIpLiteral(account.server)
    ensures LocationPlanOf(dns, account).host == account.server
    ensures account.port.Some? ==> LocationPlanOf(dns, account).port == account.port.value
    ensures account.port.None? ==> LocationPlanOf(dns, account).port == if account.transport == Tls then 5061 else 5060
    ensures LocationPlanOf(dns, account).Srv? ==>
      LocationPlanOf(dns, account).name
      == (if account.transport == Tls then "_sips._tcp."
          else if account.transport == Tcp then "_sip._tcp." else "_sip._udp.") + account.server
  {
    assert "_sip._udp" + "." == "_sip._udp." && "_sip._tcp" + "." == "_sip._tcp."
        && "_sips._tcp" + "." == "_sips._tcp.";
  }

  /** A failed query counts as an empty answer. */
  function RecordsFor(dns: Dns, name: string): seq<SrvRecord> {
    match dns.srv(name) case Ok(records) => records case Err(_) => []
  }

  /** The address a candidate resolves to, if it offers the service at all. */
  function Resolves(dns: Dns, candidate: SrvRecord): Option<SocketAddr> {
    if candidate.target in {".", ""} then None
    else match dns.lookup(candidate.target, candidate.port)
      case Ok(Some(addr)) => Some(addr)
      case _ => None
  }

  lemma OrderSize(records: seq<SrvRecord>, draws: nat -> nat)
    ensures |OrderOf(records, draws)| == |records|
  {
  }

  /**
   The first candidate in order that resolves wins; records that all fail are not a reason
   to fall back on the bare host, no records are.
   */
  method ResolveWith(dns: Dns, account: Account, draws: nat -> nat) returns (r: Result<Option<SocketAddr>, string>)
    ensures match LocationPlanOf(dns, account)
      case Direct(host, port) =>
        r == if dns.isIpLiteral(host) then Ok(Some(SocketAddr(host, port))) else dns.lookup(host, port)
      case Srv(name, host, port) =>
        var candidates := OrderOf(RecordsFor(dns, name), draws);
        if candidates == [] then r == dns.lookup(host, port)
        else
          || (r == Ok(None) && forall i :: 0 <= i < |candidates| ==> Resolves(dns, candidates[i]).None?)
          || (exists i ::
                && 0 <= i < |candidates| && Resolves(dns, candidates[i]).Some? && r == Ok(Resolves(dns, candidates[i]))
                && forall j :: 0 <= j < i ==> Resolves(dns, candidates[j]).None?)
  {
    hide OrderOf;
    match LocationPlanOf(dns, account)
    case Direct(host, port) =>
      if dns.isIpLiteral(host) {
        return Ok(Some(SocketAddr(host, port)));
      }
      return dns.lookup(host, port);
    case Srv(name, host, port) =>
      var records := RecordsFor(dns, name);
      var candidates := OrderCandidates(records, draws);
      OrderSize(records, draws);
      var i := 0;
      while i < |candidates|
        invariant i <= |candidates| && forall j :: 0 <= j < i ==> Resolves(dns, candidates[j]).None?
      {
        var candidate := candidates[i];
        if candidate.target != "." && candidate.target != "" {
          match dns.lookup(candidate.target, candidate.port) {
            case Ok(Some(addr)) =>
              assert Resolves(dns, candidates[i]) == Some(addr);
              return Ok(Some(addr));
            case Ok(None) =>
            case Err(_) =>
          }
        }
        i := i + 1;
      }
      if records != [] {
        return Ok(None);
      }
      return dns.lookup(host, port);
  }
}
