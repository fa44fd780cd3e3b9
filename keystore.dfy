/** The shared key-value store that presence tracking and the presence
    simulator both write to, as the subset of Redis commands they use. Each
    family of keys is one map:

      presence:moment:<room>                  -> members   (a Redis set)
      presence:moment:<room>:peak:<window>    -> peaks     (an integer string)
      presence:moment:<room>:hll:<window>     -> seen      (HyperLogLog; here an exact set)
      presence:moment:<room>:user:<user>:ts   -> lastSeen  (a timestamp string)
      presence:moment:<room>:sim:lock         -> locks     (present or absent)

    The functions below give the meaning of the Redis commands on these maps
    (a missing key reads as the empty set or as 0); the class methods apply
    them to the store in place. Expiry (EXPIRE, EX, PX) is not modelled. */
module KeyStore {

  /** SMEMBERS: a missing key is the empty set. */
  function MembersOf(m: map<string, set<string>>, room: string): set<string> {
    if room in m then m[room] else {}
  }

  /** SADD of one member. */
  function Added(m: map<string, set<string>>, room: string, x: string): (r: map<string, set<string>>)
    ensures MembersOf(r, room) == MembersOf(m, room) + {x}
    ensures forall other :: other != room ==> MembersOf(r, other) == MembersOf(m, other)
  {
    m[room := MembersOf(m, room) + {x}]
  }

  /** SREM of several members; on a missing key it does nothing. */
  function Removed(m: map<string, set<string>>, room: string, xs: set<string>): (r: map<string, set<string>>)
    ensures MembersOf(r, room) == MembersOf(m, room) - xs
    ensures forall other :: other != room ==> MembersOf(r, other) == MembersOf(m, other)
    ensures room !in m ==> r == m
  {
    if room in m then m[room := m[room] - xs] else m
  }

  /** The peak key read with `parseInt(get(key) || '0')`. */
  function PeakOf(peaks: map<(string, int), int>, key: (string, int)): int {
    if key in peaks then peaks[key] else 0
  }

  /** The read-compare-write of a window peak: write `count` only when it
      exceeds the stored value. */
  function Raised(peaks: map<(string, int), int>, key: (string, int), count: int): (r: map<(string, int), int>)
    ensures PeakOf(r, key) == if count > PeakOf(peaks, key) then count else PeakOf(peaks, key)
    ensures forall k :: k != key ==> (k in r <==> k in peaks) && (k in r ==> r[k] == peaks[k])
  {
    if count > PeakOf(peaks, key) then peaks[key := count] else peaks
  }

  /** The ids fed to a window's HyperLogLog; none for a missing key. */
  function SeenOf(seen: map<(string, int), set<string>>, key: (string, int)): set<string> {
    if key in seen then seen[key] else {}
  }

  /** PFADD, with the HyperLogLog replaced by the exact set of ids fed to it. */
  function Fed(seen: map<(string, int), set<string>>, key: (string, int), x: string): (r: map<(string, int), set<string>>)
    ensures SeenOf(r, key) == SeenOf(seen, key) + {x}
    ensures forall k :: k != key ==> SeenOf(r, k) == SeenOf(seen, k)
  {
    seen[key := SeenOf(seen, key) + {x}]
  }

  class Store {
    var members: map<string, set<string>>
    var peaks: map<(string, int), int>
    var seen: map<(string, int), set<string>>
    var lastSeen: map<(string, string), int>
    var locks: set<string>

    /** An empty keyspace. */
    constructor ()
      ensures members == map[] && peaks == map[] && seen == map[]
      ensures lastSeen == map[] && locks == {}
    {
      members, peaks, seen, lastSeen, locks := map[], map[], map[], map[], {};
    }

    function Members(room: string): set<string>
      reads this
    {
      MembersOf(members, room)
    }

    function Peak(room: string, win: int): int
      reads this
    {
      PeakOf(peaks, (room, win))
    }

    /** SADD presence:moment:<room> <x> */
    method SAdd(room: string, x: string)
      modifies this
      ensures members == Added(old(members), room, x)
      ensures peaks == old(peaks) && seen == old(seen) && lastSeen == old(lastSeen) && locks == old(locks)
    {
      members := Added(members, room, x);
    }

    /** SREM presence:moment:<room> <xs...> */
    method SRem(room: string, xs: set<string>)
      modifies this
      ensures members == Removed(old(members), room, xs)
      ensures peaks == old(peaks) && seen == old(seen) && lastSeen == old(lastSeen) && locks == old(locks)
    {
      members := Removed(members, room, xs);
    }

    /** SCARD presence:moment:<room>: 0 for a missing key. */
    method SCard(room: string) returns (n: nat)
      ensures n == |Members(room)|
    {
      n := |MembersOf(members, room)|;
    }

    /** PFADD presence:moment:<room>:hll:<win> <x> */
    method PfAdd(room: string, win: int, x: string)
      modifies this
      ensures seen == Fed(old(seen), (room, win), x)
      ensures members == old(members) && peaks == old(peaks) && lastSeen == old(lastSeen) && locks == old(locks)
    {
      seen := Fed(seen, (room, win), x);
    }

    /** SET presence:moment:<room>:user:<user>:ts <now> */
    method SetTimestamp(room: string, user: string, now: int)
      modifies this
      ensures lastSeen == old(lastSeen)[(room, user) := now]
      ensures members == old(members) && peaks == old(peaks) && seen == old(seen) && locks == old(locks)
    {
      lastSeen := lastSeen[(room, user) := now];
    }

    /** GET of a peak key, read as 0 when absent. */
    method GetPeak(room: string, win: int) returns (p: int)
      ensures p == Peak(room, win)
    {
      p := PeakOf(peaks, (room, win));
    }

    /** SET of a peak key. */
    method SetPeak(room: string, win: int, value: int)
      modifies this
      ensures peaks == old(peaks)[(room, win) := value]
      ensures members == old(members) && seen == old(seen) && lastSeen == old(lastSeen) && locks == old(locks)
    {
      peaks := peaks[(room, win) := value];
    }

    /** SET presence:moment:<room>:sim:lock 1 NX: succeeds only when the
        key is absent. */
    method SetLockIfAbsent(room: string) returns (acquired: bool)
      modifies this
      ensures acquired <==> room !in old(locks)
      ensures locks == old(locks) + {room}
      ensures members == old(members) && peaks == old(peaks) && seen == old(seen) && lastSeen == old(lastSeen)
    {
      acquired := room !in locks;
      locks := locks + {room};
    }

    /** DEL presence:moment:<room>:sim:lock: idempotent. */
    method DeleteLock(room: string)
      modifies this
      ensures locks == old(locks) - {room}
      ensures members == old(members) && peaks == old(peaks) && seen == old(seen) && lastSeen == old(lastSeen)
    {
      locks := locks - {room};
    }
  }
}
