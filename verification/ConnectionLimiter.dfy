/**
 Limits on simultaneous connections, per address and in all. Every accepted connection holds a guard that
 counts until it is released; guards can be moved, which hands the count over.
 */
module ConnectionLimiter {
  import opened Wrappers

  /*******************************************************************************
   *  Counting by address
   *******************************************************************************/

  ghost function Pick(held: map<nat, string>): (n: nat)
    requires held != map[]
    ensures n in held
  {
    var n :| n in held;
    n
  }

  /** The addresses of the live connections, each as often as it has connections. */
  ghost function Addresses(held: map<nat, string>): multiset<string> {
    if held == map[] then multiset{} else
      var n := Pick(held);
      multiset{held[n]} + Addresses(held - {n})
  }

  lemma RemoveCommutes(held: map<nat, string>, m: nat, n: nat)
    ensures held - {m} - {n} == held - {n} - {m}
  {
  }

  lemma RemoveAdded(held: map<nat, string>, n: nat, ip: string)
    requires n !in held
    ensures held[n := ip] - {n} == held
    ensures |held[n := ip]| == |held| + 1
  {
    assert held[n := ip].Keys == held.Keys + {n};
  }

  lemma RemoveSize(held: map<nat, string>, n: nat)
    requires n in held
    ensures |held - {n}| == |held| - 1
  {
    assert held.Keys == (held - {n}).Keys + {n};
  }

  /** Which connection is counted first does not matter. */
  lemma {:induction false} CountOne(held: map<nat, string>, n: nat)
    requires n in held
    ensures Addresses(held) == multiset{held[n]} + Addresses(held - {n})
  {
    var m := Pick(held);
    if m != n {
      CountOne(held - {m}, n);
      CountOne(held - {n}, m);
      RemoveCommutes(held, m, n);
    }
  }

  lemma {:induction false} AddressesSize(held: map<nat, string>)
    ensures |Addresses(held)| == |held|
  {
    if held != map[] {
      var n := Pick(held);
      AddressesSize(held - {n});
      RemoveSize(held, n);
    }
  }

  lemma HoldOne(held: map<nat, string>, n: nat, ip: string)
    requires n !in held
    ensures Addresses(held[n := ip]) == Addresses(held) + multiset{ip}
    ensures |held[n := ip]| == |held| + 1
  {
    CountOne(held[n := ip], n);
    RemoveAdded(held, n, ip);
  }

  lemma DropOne(held: map<nat, string>, n: nat)
    requires n in held
    ensures Addresses(held) == Addresses(held - {n}) + multiset{held[n]}
    ensures |held - {n}| == |held| - 1
  {
    CountOne(held, n);
    RemoveSize(held, n);
  }

  /** One bucket for every address that occurs, saying how often. */
  ghost function Buckets(addresses: multiset<string>): map<string, nat> {
    map ip | ip in addresses :: addresses[ip]
  }

  ghost function Sum(buckets: map<string, nat>): nat {
    if buckets == map[] then 0 else
      var ip :| ip in buckets;
      buckets[ip] + Sum(buckets - {ip})
  }

  /** Together the buckets count every address as often as it occurs. */
  lemma {:induction false} SumIsSize(addresses: multiset<string>)
    ensures Sum(Buckets(addresses)) == |addresses|
  {
    var buckets := Buckets(addresses);
    if addresses != multiset{} {
      var some :| some in addresses;
      assert some in buckets;
      var ip :| ip in buckets && Sum(buckets) == buckets[ip] + Sum(buckets - {ip});
      var rest := addresses[ip := 0];
      assert Buckets(rest) == buckets - {ip};
      SumIsSize(rest);
    }
  }

  function BucketOf(buckets: map<string, nat>, ip: string): nat {
    if ip in buckets then buckets[ip] else 0
  }

  lemma BucketGained(addresses: multiset<string>, ip: string)
    ensures BucketOf(Buckets(addresses), ip) == addresses[ip]
    ensures Buckets(addresses + multiset{ip}) == Buckets(addresses)[ip := addresses[ip] + 1]
  {
    var more := addresses + multiset{ip};
    assert forall other | other != ip :: more[other] == addresses[other];
  }

  /** The branches of Release, the two against underflow included. */
  function Released(perIp: map<string, nat>, ip: string): map<string, nat> {
    if ip in perIp then
      var count := if perIp[ip] > 0 then perIp[ip] - 1 else perIp[ip];
      if count == 0 then perIp - {ip} else perIp[ip := count]
    else perIp
  }

  lemma BucketLost(addresses: multiset<string>, ip: string)
    ensures var buckets := Buckets(addresses + multiset{ip});
      ip in buckets && buckets[ip] > 0 && Released(buckets, ip) == Buckets(addresses)
  {
    var more := addresses + multiset{ip};
    assert more[ip] == addresses[ip] + 1;
    assert forall other | other != ip :: more[other] == addresses[other];
  }

  /*******************************************************************************
   *  The limiter and its guards
   *******************************************************************************/

  datatype Stats = Stats(
    currentGlobal: nat, maxGlobal: nat, activeIpBuckets: nat,
    currentMaxPerIp: nat, maxPerIp: nat, saturatedIpBuckets: nat)

  const MOVED_FROM := "<moved-from>"

  ghost predicate Within(perIp: map<string, nat>, maxPerIp: nat) {
    forall ip | ip in perIp :: perIp[ip] <= maxPerIp
  }

  lemma BucketRaised(addresses: multiset<string>, maxPerIp: nat, ip: string)
    requires Within(Buckets(addresses), maxPerIp) && addresses[ip] < maxPerIp
    ensures Within(Buckets(addresses + multiset{ip}), maxPerIp)
  {
    BucketGained(addresses, ip);
  }

  lemma BucketLowered(addresses: multiset<string>, maxPerIp: nat, ip: string)
    requires Within(Buckets(addresses + multiset{ip}), maxPerIp)
    ensures Within(Buckets(addresses), maxPerIp)
  {
    forall other | other in Buckets(addresses) ensures Buckets(addresses)[other] <= maxPerIp {
      assert other in addresses + multiset{ip};
      assert Buckets(addresses + multiset{ip})[other] >= addresses[other];
    }
  }

  ghost predicate Numbered(held: map<nat, string>, issued: nat) {
    forall n | n in held :: n < issued
  }

  lemma NumberedOneMore(held: map<nat, string>, issued: nat, ip: string)
    requires Numbered(held, issued)
    ensures issued !in held && Numbered(held[issued := ip], issued + 1)
  {
  }

  /** The counters describe the connections held, within the limits. */
  ghost predicate Sound(
    maxPerIp: nat, maxGlobal: nat, perIp: map<string, nat>, global: nat, held: map<nat, string>, issued: nat)
  {
    && perIp == Buckets(Addresses(held)) && Within(perIp, maxPerIp)
    && global == |held| <= maxGlobal
    && Numbered(held, issued)
  }

  lemma SoundCounts(
    maxPerIp: nat, maxGlobal: nat, perIp: map<string, nat>, global: nat, held: map<nat, string>, issued: nat,
    ip: string)
    requires Sound(maxPerIp, maxGlobal, perIp, global, held, issued)
    ensures BucketOf(perIp, ip) == Addresses(held)[ip]
  {
    BucketGained(Addresses(held), ip);
  }

  lemma SoundAcquire(
    maxPerIp: nat, maxGlobal: nat, perIp: map<string, nat>, global: nat, held: map<nat, string>, issued: nat,
    ip: string, buckets: map<string, nat>, more: map<nat, string>)
    requires Sound(maxPerIp, maxGlobal, perIp, global, held, issued)
    requires global < maxGlobal && BucketOf(perIp, ip) < maxPerIp
    requires buckets == perIp[ip := BucketOf(perIp, ip) + 1] && more == held[issued := ip]
    ensures Sound(maxPerIp, maxGlobal, buckets, global + 1, more, issued + 1)
  {
    var addresses := Addresses(held);
    BucketGained(addresses, ip);
    NumberedOneMore(held, issued, ip);
    HoldOne(held, issued, ip);
    BucketRaised(addresses, maxPerIp, ip);
  }

  class Limiter {
    const maxPerIp: nat
    const maxGlobal: nat
    var perIp: map<string, nat>
    var global: nat
    /** The connections that count here: each live guard stands for one of them. */
    ghost var held: map<nat, string>
    ghost var issued: nat

    ghost predicate Valid()
      reads this
    {
      && maxPerIp >= 1 && maxGlobal >= 1
      && Sound(maxPerIp, maxGlobal, perIp, global, held, issued)
    }

    /** The counters agree: the total is the sum of the buckets and the number of live guards. */
    lemma CountersAgree()
      requires Valid()
      ensures global == Sum(perIp) == |held| <= maxGlobal
      ensures forall ip | ip in perIp :: 1 <= perIp[ip] == Addresses(held)[ip] <= maxPerIp
    {
      SumIsSize(Addresses(held));
      AddressesSize(held);
    }

    /** The server's constructor throws when a limit is zero; Create below reports that. */
    constructor (maxPerIp: nat, maxGlobal: nat)
      requires maxPerIp >= 1 && maxGlobal >= 1
      ensures Valid() && held == map[] && this.maxPerIp == maxPerIp && this.maxGlobal == maxGlobal
    {
      this.maxPerIp, this.maxGlobal := maxPerIp, maxGlobal;
      perIp, global := map[], 0;
      held, issued := map[], 0;
    }

    static method Create(maxPerIp: nat, maxGlobal: nat) returns (r: Option<Limiter>)
      ensures r.None? <==> maxPerIp == 0 || maxGlobal == 0
      ensures r.Some? ==> fresh(r.value) && r.value.Valid() && r.value.held == map[]
    {
      if maxPerIp == 0 || maxGlobal == 0 {
        return None;
      }
      var limiter := new Limiter(maxPerIp, maxGlobal);
      return Some(limiter);
    }

    /** The counting part of TryAcquire. Refuses exactly when a limit is reached, and then changes nothing. */
    method Count(ip: string) returns (ok: bool)
      requires Valid()
      modifies this
      ensures Valid()
      ensures ok <==> |old(held)| < maxGlobal && Addresses(old(held))[ip] < maxPerIp
      ensures !ok ==> held == old(held) && perIp == old(perIp) && issued == old(issued)
      ensures ok ==> held == old(held)[old(issued) := ip] && issued == old(issued) + 1
    {
      SoundCounts(maxPerIp, maxGlobal, perIp, global, held, issued, ip);
      if global >= maxGlobal {
        return false;
      }
      var count := BucketOf(perIp, ip);
      if count >= maxPerIp {
        return false;
      }
      Add(ip);
      return true;
    }

    /** Both counters go up by one. */
    method Add(ip: string)
      requires Valid() && global < maxGlobal && BucketOf(perIp, ip) < maxPerIp
      modifies this
      ensures held == old(held)[old(issued) := ip] && issued == old(issued) + 1
      ensures Valid()
    {
      ghost var more := held[issued := ip];
      var buckets, count := perIp[ip := BucketOf(perIp, ip) + 1], global + 1;
      SoundAcquire(maxPerIp, maxGlobal, perIp, global, held, issued, ip, buckets, more);
      Store(buckets, count, more, issued + 1);
    }

    method Store(buckets: map<string, nat>, count: nat, ghost more: map<nat, string>, ghost next: nat)
      requires maxPerIp >= 1 && maxGlobal >= 1 && Sound(maxPerIp, maxGlobal, buckets, count, more, next)
      modifies this
      ensures perIp == buckets && global == count && held == more && issued == next
      ensures Valid()
    {
      perIp, global := buckets, count;
      held, issued := more, next;
    }

    method TryAcquire(ip: string) returns (r: Option<Guard>)
      requires Valid()
      modifies this
      ensures Valid()
      ensures r.None? <==> |old(held)| >= maxGlobal || Addresses(old(held))[ip] >= maxPerIp
      ensures r.None? ==> held == old(held)
      ensures r.Some? ==>
        && fresh(r.value) && r.value.Valid() && r.value.owner == this && r.value.ip == ip
        && r.value.number !in old(held) && held == old(held)[r.value.number := ip]
    {
      ghost var number := issued;
      var ok := Count(ip);
      if !ok {
        return None;
      }
      var guard := new Guard.Owning(this, ip, number);
      return Some(guard);
    }

    /** The two tests against underflow are there; Release shows that they never fail. */
    method Decrement(ip: string)
      modifies this`perIp, this`global
      ensures perIp == Released(old(perIp), ip)
      ensures global == if old(global) > 0 then old(global) - 1 else 0
    {
      if ip in perIp {
        if perIp[ip] > 0 {
          perIp := perIp[ip := perIp[ip] - 1];
        }
        if perIp[ip] == 0 {
          perIp := perIp - {ip};
        }
      }
      if global > 0 {
        global := global - 1;
      }
    }

    /** Drops one live guard. */
    method Release(ip: string, ghost number: nat)
      requires Valid() && number in held && held[number] == ip
      modifies this`perIp, this`global, this`held
      ensures Valid() && held == old(held) - {number}
    {
      DropOne(held, number);
      BucketLost(Addresses(held - {number}), ip);
      BucketLowered(Addresses(held - {number}), maxPerIp, ip);
      assert ip in perIp && perIp[ip] > 0 && global > 0;
      Decrement(ip);
      held := held - {number};
    }

    method GetStats() returns (stats: Stats)
      requires Valid()
      ensures stats.currentGlobal == |held| && stats.maxGlobal == maxGlobal && stats.maxPerIp == maxPerIp
      ensures stats.activeIpBuckets == |perIp|
      ensures IsLargest(perIp, stats.currentMaxPerIp)
      ensures stats.saturatedIpBuckets == |Saturated(perIp, maxPerIp, perIp.Keys)|
    {
      var currentMax, saturated := ScanBuckets(perIp, maxPerIp);
      stats := Stats(global, maxGlobal, |perIp|, currentMax, maxPerIp, saturated);
    }
  }

  function Saturated(perIp: map<string, nat>, maxPerIp: nat, ips: set<string>): set<string> {
    set ip | ip in ips && ip in perIp && perIp[ip] >= maxPerIp
  }

  /** The largest bucket, or zero when there is none. */
  ghost predicate IsLargest(perIp: map<string, nat>, n: nat) {
    && (forall ip | ip in perIp :: perIp[ip] <= n)
    && (if perIp == map[] then n == 0 else exists ip :: ip in perIp && perIp[ip] == n)
  }

  lemma SaturatedOneLess(perIp: map<string, nat>, maxPerIp: nat, ips: set<string>, ip: string)
    requires ip in ips && ip in perIp
    ensures |Saturated(perIp, maxPerIp, ips)|
         == |Saturated(perIp, maxPerIp, ips - {ip})| + if perIp[ip] >= maxPerIp then 1 else 0
  {
    assert Saturated(perIp, maxPerIp, ips)
        == Saturated(perIp, maxPerIp, ips - {ip}) + if perIp[ip] >= maxPerIp then {ip} else {};
  }

  method ScanBuckets(perIp: map<string, nat>, maxPerIp: nat) returns (currentMax: nat, saturated: nat)
    ensures IsLargest(perIp, currentMax)
    ensures saturated == |Saturated(perIp, maxPerIp, perIp.Keys)|
  {
    currentMax, saturated := 0, 0;
    var rest := perIp.Keys;
    while rest != {}
      invariant forall ip | ip in rest :: ip in perIp
      invariant forall ip | ip in perIp :: ip in rest || perIp[ip] <= currentMax
      invariant currentMax == 0 || exists ip :: ip in perIp && perIp[ip] == currentMax
      invariant saturated + |Saturated(perIp, maxPerIp, rest)| == |Saturated(perIp, maxPerIp, perIp.Keys)|
      decreases rest
    {
      var ip :| ip in rest;
      SaturatedOneLess(perIp, maxPerIp, rest, ip);
      rest := rest - {ip};
      if perIp[ip] > currentMax {
        currentMax := perIp[ip];
      }
      if perIp[ip] >= maxPerIp {
        saturated := saturated + 1;
      }
    }
    assert Saturated(perIp, maxPerIp, rest) == {};
    if perIp != map[] {
      var ip :| ip in perIp;
    }
  }

  class Guard {
    var owner: Limiter?
    var ip: string
    /** Which of the owner's connections this guard stands for. */
    ghost var number: nat

    constructor Empty()
      ensures owner == null && Valid()
    {
      owner, ip, number := null, "", 0;
    }

    constructor Owning(owner: Limiter, ip: string, ghost number: nat)
      ensures this.owner == owner && this.ip == ip && this.number == number
    {
      this.owner, this.ip, this.number := owner, ip, number;
    }

    ghost predicate Valid()
      reads this, owner
    {
      owner != null ==> owner.Valid() && number in owner.held && owner.held[number] == ip
    }

    /** What a destructor or an overwriting move does first; a second call does nothing. */
    method Release()
      requires Valid()
      modifies this`owner, owner
      ensures owner == null && ip == old(ip)
      ensures old(owner) != null ==>
        old(owner).Valid() && old(owner).held == old(owner.held) - {number}
    {
      if owner != null {
        owner.Release(ip, number);
        owner := null;
      }
    }

    /**
     Move assignment: the target's own count is dropped, the other guard's is handed over. Guards cannot be
     copied, so two of them never stand for the same connection.
     */
    method MoveFrom(other: Guard)
      requires Valid() && other.Valid()
      requires other != this && owner != null && owner == other.owner ==> number != other.number
      modifies this, other, owner
      ensures Valid() && other.Valid()
      ensures other == this ==> owner == old(owner) && ip == old(ip) && number == old(number)
      ensures other == this && owner != null ==> owner.held == old(owner.held)
      ensures other != this ==> owner == old(other.owner) && ip == old(other.ip) && number == old(other.number)
      ensures other != this ==> other.owner == null && other.ip == MOVED_FROM
      ensures other != this && old(owner) != null ==>
        old(owner).Valid() && old(owner).held == old(owner.held) - {old(number)}
    {
      if this != other {
        Release();
        owner := other.owner;
        ip := other.ip;
        number := other.number;
        other.owner := null;
        other.ip := MOVED_FROM;
      }
    }
  }
}
