/**
  The cache of one node: its lines, the eviction order beside them, and what
  each operation does. Messages to peers are not modelled: no peer handles them.
*/
module CacheNode {
  import opened Util
  import opened Lru

  newtype Byte = b: int | 0 <= b < 0x100
  type Bytes = seq<Byte>

  datatype LineState = Modified | Owned | Exclusive | Shared | Invalid

  datatype Line = Line(state: LineState, data: Bytes, lastUpdated: real, version: nat)

  datatype Operation = ReadShared | Invalidation | OtherOperation

  datatype Limits = Limits(maxSize: int, capacity: nat, ttl: real)

  datatype Cache = Cache(
    lines: map<Address, Line>, order: seq<Address>, hits: nat, misses: nat, invalidations: nat)

  const EMPTY := Cache(map[], [], 0, 0, 0)

  predicate Hit(c: Cache, a: Address) {
    a in c.lines && c.lines[a].state != Invalid
  }

  function Read(c: Cache, l: Limits, a: Address): Cache {
    if Hit(c, a) then c.(order := Touch(c.order, l.capacity, a), hits := c.hits + 1)
    else c.(misses := c.misses + 1)
  }

  /** A line that is present is returned even if it is invalid. */
  function ReadData(c: Cache, a: Address): Option<Bytes> {
    if a in c.lines then Some(c.lines[a].data) else None
  }

  predicate WritesInPlace(c: Cache, a: Address) {
    a in c.lines && c.lines[a].state == Modified
  }

  /** The address that a write of `a` evicts. */
  function Victim(c: Cache, l: Limits, a: Address): Option<Address> {
    if !WritesInPlace(c, a) && a !in c.lines && |c.lines| >= l.maxSize && c.order != [] then Some(c.order[0]) else None
  }

  /** A write fails when its victim is not in the cache: the deletion raises an error. */
  predicate WriteFails(c: Cache, l: Limits, a: Address) {
    var v := Victim(c, l, a);
    v.Some? && v.value !in c.lines
  }

  function Evict(c: Cache, victim: Option<Address>): Cache {
    if victim == None then c
    else c.(lines := c.lines - {victim.value}, order := Without(c.order, victim.value))
  }

  function Write(c: Cache, l: Limits, a: Address, data: Bytes, now: real): Cache {
    if WriteFails(c, l, a) then c
    else
      var d := Evict(c, Victim(c, l, a));
      var line := Line(Modified, data, now, if WritesInPlace(c, a) then c.lines[a].version + 1 else 1);
      d.(lines := d.lines[a := line], order := Touch(d.order, l.capacity, a), invalidations := c.invalidations + 1)
  }

  function SetState(c: Cache, a: Address, state: LineState): Cache {
    if a in c.lines then c.(lines := c.lines[a := c.lines[a].(state := state)]) else c
  }

  function Snoop(c: Cache, a: Address, op: Operation): Cache {
    if a !in c.lines then c
    else match op
      case ReadShared => if c.lines[a].state == Modified then SetState(c, a, Owned) else c
      case Invalidation => SetState(c, a, Invalid)
      case OtherOperation => c
  }

  function ExpiredLines(c: Cache, l: Limits, now: real): set<Address> {
    set a | a in c.lines && now - c.lines[a].lastUpdated > l.ttl
  }

  function Discard(c: Cache, gone: set<Address>): Cache {
    c.(lines := c.lines - gone, order := Kept(c.order, gone))
  }

  function CleanUp(c: Cache, l: Limits, now: real): Cache {
    Discard(c, ExpiredLines(c, l, now))
  }

  // ---- the node as the program has it ---------------------------------------

  class Node {
    const ttl: real
    const lru: LRUReplacement
    var maxSize: int
    var cache: map<Address, Line>
    var hitCount: nat
    var missCount: nat
    var invalidationCount: nat

    function View(): Cache
      reads this, lru
    {
      Cache(cache, lru.accessOrder, hitCount, missCount, invalidationCount)
    }

    function TheLimits(): Limits
      reads this
    {
      Limits(maxSize, lru.capacity, ttl)
    }

    constructor (maxSize: nat, ttl: real)
      ensures View() == EMPTY && TheLimits() == Limits(maxSize, maxSize, ttl) && fresh(lru)
    {
      this.maxSize, this.ttl := maxSize, ttl;
      lru := new LRUReplacement(maxSize);
      cache, hitCount, missCount, invalidationCount := map[], 0, 0, 0;
    }

    method ReadLine(a: Address) returns (data: Option<Bytes>)
      modifies this, lru
      ensures View() == Read(old(View()), old(TheLimits()), a) && TheLimits() == old(TheLimits())
      ensures data == ReadData(old(View()), a)
    {
      if a in cache {
        var line := cache[a];
        if line.state != Invalid {
          lru.TouchAddress(a);
          hitCount := hitCount + 1;
          return Some(line.data);
        }
      }
      missCount := missCount + 1;
      return if a in cache then Some(cache[a].data) else None;
    }

    /** `false` stands for the error that the deletion of an absent victim raises. */
    method WriteLine(a: Address, data: Bytes, now: real) returns (ok: bool)
      modifies this, lru
      ensures View() == Write(old(View()), old(TheLimits()), a, data, now) && TheLimits() == old(TheLimits())
      ensures ok == !WriteFails(old(View()), old(TheLimits()), a)
    {
      if a in cache && cache[a].state == Modified {
        var line := cache[a];
        cache := cache[a := Line(Modified, data, now, line.version + 1)];
        lru.TouchAddress(a);
        invalidationCount := invalidationCount + 1;
        return true;
      }
      if a !in cache && |cache| >= maxSize {
        var victim := lru.Evict();
        if victim != None {
          if victim.value !in cache {
            return false;
          }
          cache := cache - {victim.value};
          lru.RemoveAddress(victim.value);
        }
      }
      cache := cache[a := Line(Modified, data, now, 1)];
      lru.TouchAddress(a);
      invalidationCount := invalidationCount + 1;
      return true;
    }

    method HandleSnoop(a: Address, op: Operation)
      modifies this`cache
      ensures View() == Snoop(old(View()), a, op)
    {
      if a in cache {
        var line := cache[a];
        if op == ReadShared {
          if line.state == Modified {
            cache := cache[a := line.(state := Owned)];
          }
        } else if op == Invalidation {
          cache := cache[a := line.(state := Invalid)];
        }
      }
    }

    method InvalidateLine(a: Address) returns (found: bool)
      modifies this`cache
      ensures View() == SetState(old(View()), a, Invalid)
      ensures found == (a in old(cache))
    {
      if a in cache {
        cache := cache[a := cache[a].(state := Invalid)];
        return true;
      }
      return false;
    }

    /** One round of `_cache_cleanup`: expired lines are deleted one after the other. */
    method RemoveExpired(now: real)
      modifies this, lru
      ensures View() == CleanUp(old(View()), old(TheLimits()), now) && TheLimits() == old(TheLimits())
    {
      ghost var was := View();
      var expired: set<Address> := set a | a in cache && now - cache[a].lastUpdated > ttl;
      ghost var gone: set<Address> := {};
      KeptAll(was.order);
      assert was.lines - {} == was.lines;
      while expired != {}
        invariant gone + expired == ExpiredLines(was, old(TheLimits()), now) && gone !! expired
        invariant View() == Discard(was, gone) && TheLimits() == old(TheLimits())
        decreases expired
      {
        ghost var some := HasMember(expired);
        var a :| a in expired;
        cache := cache - {a};
        lru.RemoveAddress(a);
        KeptWithout(was.order, gone, a);
        assert was.lines - gone - {a} == was.lines - (gone + {a});
        expired := expired - {a};
        gone := gone + {a};
      }
    }
  }
}
