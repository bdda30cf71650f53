/** The pool of SSH connections (internal/ssh/pool.go): its critical sections, and every interleaving
    of them. */
module SshPool {
  import opened Text

  /** A client stands for one successful dial; no two dials give the same one. */
  type Client = nat

  // --------------------------------------------------------- critical sections

  /** The connection map, and the log of the pool's Close calls on clients. */
  datatype PoolState = PoolState(conn: map<string, Client>, closed: seq<Client>)

  /** getOrDial's second critical section: what is stored wins over `c`. */
  function Stored(p: PoolState, k: string, c: Client): PoolState {
    if k in p.conn then p else p.(conn := p.conn[k := c])
  }

  /** dropClient. */
  function Dropped(p: PoolState, k: string): PoolState {
    if k in p.conn then PoolState(p.conn - {k}, p.closed + [p.conn[k]]) else p
  }

  /** Close, having walked the map in the order of `keys`. */
  function DroppedAll(p: PoolState, keys: seq<string>): PoolState {
    if keys == [] then p else Dropped(DroppedAll(p, keys[..|keys| - 1]), keys[|keys| - 1])
  }

  lemma {:induction false} DroppedAllKeeps(p: PoolState, keys: seq<string>)
    ensures forall k :: k in DroppedAll(p, keys).conn <==> k in p.conn && k !in keys
    ensures forall k :: k in DroppedAll(p, keys).conn ==> DroppedAll(p, keys).conn[k] == p.conn[k]
  {
    if keys != [] {
      DroppedAllKeeps(p, keys[..|keys| - 1]);
      assert keys == keys[..|keys| - 1] + [keys[|keys| - 1]];
    }
  }

  class Pool {
    var conn: map<string, Client>
    var closed: seq<Client>

    constructor ()
      ensures conn == map[] && closed == []
    {
      conn, closed := map[], [];
    }

    function State(): PoolState
      reads this
    {
      PoolState(conn, closed)
    }

    /** The first critical section of getOrDial. */
    method Lookup(k: string) returns (r: Option<Client>)
      ensures r == if k in conn then Some(conn[k]) else None
    {
      if k in conn {
        return Some(conn[k]);
      }
      return None;
    }

    /** Its second: the client to return, and whether that leaves the caller's own one over. */
    method Store(k: string, c: Client) returns (r: Client, lost: bool)
      modifies this
      ensures State() == Stored(old(State()), k, c)
      ensures k in conn && conn[k] == r && lost == (k in old(conn)) && (!lost ==> r == c)
    {
      if k in conn {
        return conn[k], true;
      }
      conn := conn[k := c];
      return c, false;
    }

    /** What getOrDial does with a new client: store it, or close it when another is stored. */
    method Adopt(k: string, c: Client) returns (r: Client)
      modifies this
      ensures k in conn && conn[k] == r && conn == Stored(old(State()), k, c).conn
      ensures closed == old(closed) + if k in old(conn) then [c] else []
    {
      var lost;
      r, lost := Store(k, c);
      if lost {
        closed := closed + [c];
      }
    }

    /** getOrDial when no other caller comes between its sections; `dial` is what dialling gives, or
        None. A stored client is returned without it. */
    method GetOrDial(k: string, dial: Option<Client>) returns (r: Option<Client>)
      modifies this
      ensures r == if k in old(conn) then Some(old(conn)[k]) else dial
      ensures State() == if k !in old(conn) && dial.Some? then Stored(old(State()), k, dial.value) else old(State())
    {
      r := Lookup(k);
      if r == None && dial.Some? {
        var c := Adopt(k, dial.value);
        r := Some(c);
      }
    }

    method DropClient(k: string)
      modifies this
      ensures State() == Dropped(old(State()), k)
    {
      if k in conn {
        closed := closed + [conn[k]];
        conn := conn - {k};
      }
    }

    /** Close walks the map in any order. */
    method Close() returns (ghost order: seq<string>)
      modifies this
      ensures Enumerates(order, old(conn).Keys) && State() == DroppedAll(old(State()), order)
      ensures conn == map[]
    {
      order := [];
      ghost var p := State();
      while conn.Keys != {}
        invariant State() == DroppedAll(p, order)
        invariant forall k :: k in order ==> k in p.conn && k !in conn
        invariant forall k :: k in p.conn && k !in order ==> k in conn
        invariant forall k :: k in conn ==> k in p.conn
        invariant forall i, j :: 0 <= i < j < |order| ==> order[i] != order[j]
        decreases conn.Keys
      {
        var k :| k in conn.Keys;
        closed := closed + [conn[k]];
        conn := conn - {k};
        assert (order + [k])[..|order|] == order;
        order := order + [k];
      }
    }
  }

  // ------------------------------------------------------------- all interleavings

  /** Where one caller of RunWithInput or Stream is, in getOrDial and the stale-connection retry.
      `stale` is the client of the failed first attempt. */
  datatype Phase =
    | Checking(key: string, stale: Option<Client>)
    | Dialling(key: string, stale: Option<Client>)
    | Dialled(key: string, stale: Option<Client>, mine: Client)
    | Losing(key: string, stale: Option<Client>, mine: Client, existing: Client)
    | Got(key: string, stale: Option<Client>, client: Client)
    | Dropping(key: string, client: Client)
    | Finished

  /** `dialed` is the key each client was dialled for; `last` the map each caller saw when it left its
      last critical section. */
  datatype Sys = Sys(
    pool: PoolState, dialed: map<Client, string>, callers: map<nat, Phase>, last: map<nat, map<string, Client>>)

  const INITIAL := Sys(PoolState(map[], []), map[], map[], map[])

  datatype Event =
    | Begin(t: nat, key: string)
    | Check(t: nat)
    | DialOk(t: nat, c: Client)
    | DialFail(t: nat)
    | Recheck(t: nat)
    | CloseLoser(t: nat)
    | SessionOk(t: nat)
    | SessionFail(t: nat)
    | Drop(t: nat)
    | CloseAll(order: seq<string>)

  function At(s: Sys, t: nat, p: Phase): Sys {
    s.(callers := s.callers[t := p])
  }

  /** A critical section of caller `t` that leaves the pool as `pool`. */
  function Section(s: Sys, t: nat, pool: PoolState, p: Phase): Sys {
    s.(pool := pool, callers := s.callers[t := p], last := s.last[t := pool.conn])
  }

  function PhaseOf(s: Sys, t: nat): Phase {
    if t in s.callers then s.callers[t] else Finished
  }

  ghost function Exec(s: Sys, e: Event): Option<Sys> {
    match e
    case Begin(t, key) => if t in s.callers then None else Some(At(s, t, Checking(key, None)))
    case CloseAll(order) =>
      if Enumerates(order, s.pool.conn.Keys) then Some(s.(pool := DroppedAll(s.pool, order))) else None
    case DialOk(t, c) =>
      (match PhaseOf(s, t)
       case Dialling(key, stale) =>
         if c in s.dialed then None else Some(At(s, t, Dialled(key, stale, c)).(dialed := s.dialed[c := key]))
       case _ => None)
    case _ => ExecPhase(s, e.t, e, PhaseOf(s, e.t))
  }

  /** The events that act on one caller and dial nothing. */
  function ExecPhase(s: Sys, t: nat, e: Event, p: Phase): Option<Sys> {
    match (e, p)
    case (Check(_), Checking(key, stale)) =>
      Some(Section(s, t, s.pool,
                   if key in s.pool.conn then Got(key, stale, s.pool.conn[key]) else Dialling(key, stale)))
    case (DialFail(_), Dialling(_, _)) => Some(At(s, t, Finished))
    case (Recheck(_), Dialled(key, stale, mine)) =>
      Some(Section(s, t, Stored(s.pool, key, mine),
                   if key in s.pool.conn then Losing(key, stale, mine, s.pool.conn[key]) else Got(key, stale, mine)))
    case (CloseLoser(_), Losing(key, stale, mine, existing)) =>
      Some(At(s, t, Got(key, stale, existing)).(pool := s.pool.(closed := s.pool.closed + [mine])))
    case (SessionOk(_), Got(_, _, _)) => Some(At(s, t, Finished))
    case (SessionFail(_), Got(key, stale, c)) =>
      Some(At(s, t, if stale.None? then Dropping(key, c) else Finished))
    case (Drop(_), Dropping(key, c)) => Some(Section(s, t, Dropped(s.pool, key), Checking(key, Some(c))))
    case _ => None
  }

  ghost function Run(events: seq<Event>): Option<Sys> {
    if events == [] then Some(INITIAL)
    else
      match Run(events[..|events| - 1])
      case None => None
      case Some(s) => Exec(s, events[|events| - 1])
  }

  // -------------------------------------------------------------- the three fates

  /** The client a caller has dialled and neither stored nor closed yet. */
  function Mine(p: Phase): Option<Client> {
    if p.Dialled? || p.Losing? then Some(p.mine) else None
  }

  predicate InFlight(s: Sys, c: Client, t: nat) {
    Mine(PhaseOf(s, t)) == Some(c)
  }

  predicate Kept(s: Sys, c: Client) {
    c in s.dialed && s.dialed[c] in s.pool.conn && s.pool.conn[s.dialed[c]] == c
  }

  function Closes(s: Sys, c: Client): nat {
    multiset(s.pool.closed)[c]
  }

  datatype Fate = Flying(t: nat) | InPool | ClosedOnce

  /** The three fates exclude one another. */
  ghost predicate HasFate(s: Sys, c: Client, f: Fate) {
    && Kept(s, c) == f.InPool?
    && Closes(s, c) == (if f.ClosedOnce? then 1 else 0)
    && forall t :: InFlight(s, c, t) <==> f == Flying(t)
  }

  ghost predicate Accounted(s: Sys, c: Client) {
    exists f :: HasFate(s, c, f)
  }

  /** A client handed to a caller: it was stored under the caller's key when the caller left its last
      critical section, and is not the one that failed it before. */
  ghost predicate Served(s: Sys, t: nat, key: string, stale: Option<Client>, c: Client) {
    && c in s.dialed && s.dialed[c] == key
    && t in s.last && key in s.last[t] && s.last[t][key] == c
    && (Kept(s, c) || Closes(s, c) > 0)
    && (stale.Some? ==> c != stale.value)
  }

  ghost predicate PhaseInv(s: Sys, t: nat) {
    match PhaseOf(s, t)
    case Checking(_, stale) => GoneBefore(s, stale)
    case Dialling(_, stale) => GoneBefore(s, stale)
    case Dialled(key, stale, mine) => GoneBefore(s, stale) && mine in s.dialed && s.dialed[mine] == key
    case Losing(key, stale, mine, existing) =>
      GoneBefore(s, stale) && mine in s.dialed && s.dialed[mine] == key && Served(s, t, key, stale, existing)
    case Got(key, stale, c) => GoneBefore(s, stale) && Served(s, t, key, stale, c)
    case Dropping(key, c) => c in s.dialed && s.dialed[c] == key && (Kept(s, c) || Closes(s, c) > 0)
    case Finished => true
  }

  ghost predicate GoneBefore(s: Sys, stale: Option<Client>) {
    stale.Some? ==> Closes(s, stale.value) > 0
  }

  ghost predicate OwnKeys(s: Sys) {
    forall k :: k in s.pool.conn ==> s.pool.conn[k] in s.dialed && s.dialed[s.pool.conn[k]] == k
  }

  ghost predicate Inv(s: Sys) {
    && OwnKeys(s)
    && (forall c :: c in s.dialed ==> Accounted(s, c))
    && (forall c :: c !in s.dialed ==> Closes(s, c) == 0)
    && (forall t :: PhaseInv(s, t))
  }

  // ------------------------------------------------------------- what steps keep

  /** Nothing a caller relies on is lost by a step: dialled clients stay known, closed ones closed, and
      a stored one leaves the pool only by being closed. */
  ghost predicate Grows(s: Sys, s': Sys) {
    && (forall c :: c in s.dialed ==> c in s'.dialed && s'.dialed[c] == s.dialed[c])
    && (forall c :: Closes(s, c) <= Closes(s', c))
    && (forall c :: Kept(s, c) ==> Kept(s', c) || Closes(s', c) > 0)
  }

  lemma {:induction false} OthersKeepPhase(s: Sys, s': Sys, t: nat)
    requires PhaseInv(s, t) && Grows(s, s') && PhaseOf(s', t) == PhaseOf(s, t)
    requires t in s.last ==> t in s'.last && s'.last[t] == s.last[t]
    ensures PhaseInv(s', t)
  {
    hide Closes;
    hide Kept;
  }

  lemma {:induction false} ClosesMore(p: seq<Client>, c: Client, d: Client)
    ensures multiset(p + [c])[d] == multiset(p)[d] + if d == c then 1 else 0
  {
  }

  // Steps that neither touch the pool nor who is in flight.

  lemma {:induction false} QuietStep(s: Sys, s': Sys, t: nat)
    requires Inv(s) && s'.pool == s.pool && s'.dialed == s.dialed
    requires forall u :: u != t ==> PhaseOf(s', u) == PhaseOf(s, u)
    requires forall u :: u != t && u in s.last ==> u in s'.last && s'.last[u] == s.last[u]
    requires Mine(PhaseOf(s', t)) == Mine(PhaseOf(s, t))
    requires PhaseInv(s', t)
    ensures Inv(s')
  {
    hide PhaseInv;
    assert forall c :: Kept(s', c) == Kept(s, c) && Closes(s', c) == Closes(s, c);
    assert forall c, u :: InFlight(s', c, u) == InFlight(s, c, u);
    forall c | c in s'.dialed ensures Accounted(s', c) {
      var f :| HasFate(s, c, f);
      assert HasFate(s', c, f);
    }
    forall u ensures PhaseInv(s', u) {
      if u != t {
        OthersKeepPhase(s, s', u);
      }
    }
  }

  lemma {:induction false} CheckStep(s: Sys, s': Sys, t: nat)
    requires Inv(s) && Exec(s, Check(t)) == Some(s')
    ensures Inv(s')
  {
    hide Accounted;
    var p := PhaseOf(s, t);
    if p.key in s.pool.conn {
      var c := s.pool.conn[p.key];
      assert Kept(s, c);
      StoredIsNotClosed(s, c);
    }
    hide Closes;
    assert PhaseInv(s, t);
    assert PhaseInv(s', t);
    QuietStep(s, s', t);
  }

  lemma {:induction false} StoredIsNotClosed(s: Sys, c: Client)
    requires Inv(s) && Kept(s, c)
    ensures Closes(s, c) == 0
  {
    hide PhaseInv;
    assert Accounted(s, c);
  }

  lemma {:induction false} PlainStep(s: Sys, s': Sys, e: Event)
    requires Inv(s) && Exec(s, e) == Some(s')
    requires e.Begin? || e.DialFail? || e.SessionOk? || e.SessionFail?
    ensures Inv(s')
  {
    hide Accounted;
    assert PhaseInv(s, e.t);
    assert PhaseInv(s', e.t);
    QuietStep(s, s', e.t);
  }

  // Steps that change the fate of one client.

  lemma {:induction false} OneMoves(s: Sys, s': Sys, t: nat, c: Client)
    requires Inv(s) && OwnKeys(s') && Accounted(s', c) && PhaseInv(s', t) && Grows(s, s')
    requires s'.dialed.Keys == s.dialed.Keys + {c}
    requires forall d :: d != c ==> Kept(s', d) == Kept(s, d) && Closes(s', d) == Closes(s, d)
    requires forall u :: u != t ==> PhaseOf(s', u) == PhaseOf(s, u)
    requires forall u :: u != t && u in s.last ==> u in s'.last && s'.last[u] == s.last[u]
    requires forall d :: d != c ==> InFlight(s', d, t) == InFlight(s, d, t)
    ensures Inv(s')
  {
    hide PhaseInv;
    hide Kept;
    hide Closes;
    forall d | d in s'.dialed ensures Accounted(s', d) {
      if d != c {
        var g :| HasFate(s, d, g);
        assert forall u :: InFlight(s', d, u) == InFlight(s, d, u);
        assert HasFate(s', d, g);
      }
    }
    forall u ensures PhaseInv(s', u) {
      if u != t {
        OthersKeepPhase(s, s', u);
      }
    }
  }

  lemma {:induction false} DialStep(s: Sys, s': Sys, t: nat, c: Client)
    requires Inv(s) && Exec(s, DialOk(t, c)) == Some(s')
    ensures Inv(s')
  {
    hide PhaseInv;
    hide Accounted;
    assert PhaseInv(s, t);
    NobodyHolds(s, c);
    assert forall d :: Closes(s', d) == Closes(s, d);
    assert forall d :: d != c ==> Kept(s', d) == Kept(s, d);
    assert Mine(PhaseOf(s', t)) == Some(c);
    forall u ensures InFlight(s', c, u) <==> u == t {
      assert !InFlight(s, c, u);
    }
    Holds(s', c, Flying(t));
    NewPhase(s, s', t);
    hide Closes;
    OneMoves(s, s', t, c);
  }

  lemma {:induction false} Holds(s: Sys, c: Client, f: Fate)
    requires HasFate(s, c, f)
    ensures Accounted(s, c)
  {
    hide HasFate;
  }

  lemma {:induction false} NewPhase(s: Sys, s': Sys, t: nat)
    requires PhaseInv(s, t) && PhaseOf(s, t).Dialling? && PhaseOf(s', t).Dialled?
    requires var p, q := PhaseOf(s, t), PhaseOf(s', t);
             q.key == p.key && q.stale == p.stale && q.mine in s'.dialed && s'.dialed[q.mine] == q.key
    requires forall d :: Closes(s', d) == Closes(s, d)
    ensures PhaseInv(s', t)
  {
    hide Closes;
  }

  /** An undialled client is in nobody's hands. */
  lemma {:induction false} NobodyHolds(s: Sys, c: Client)
    requires Inv(s) && c !in s.dialed
    ensures !Kept(s, c) && Closes(s, c) == 0 && forall u :: !InFlight(s, c, u)
    ensures forall k :: k in s.pool.conn ==> s.pool.conn[k] != c
  {
    hide Accounted;
    hide Closes;
    forall u ensures !InFlight(s, c, u) {
      assert PhaseInv(s, u);
    }
  }

  lemma {:induction false} RecheckStep(s: Sys, s': Sys, t: nat)
    requires Inv(s) && Exec(s, Recheck(t)) == Some(s')
    ensures Inv(s')
  {
    var p := PhaseOf(s, t);
    assert PhaseInv(s, t);
    if p.key in s.pool.conn {
      var existing := s.pool.conn[p.key];
      assert Kept(s, existing);
      StoredIsNotClosed(s, existing);
      assert PhaseInv(s', t) by {
        hide Accounted;
        hide Closes;
      }
      QuietStep(s, s', t);
    } else {
      StoreStep(s, s', t);
    }
  }

  lemma {:induction false} MineIsFlying(s: Sys, t: nat)
    requires Inv(s) && Mine(PhaseOf(s, t)).Some?
    ensures var c := PhaseOf(s, t).mine;
            c in s.dialed && s.dialed[c] == PhaseOf(s, t).key && HasFate(s, c, Flying(t))
  {
    hide Closes;
    var c := PhaseOf(s, t).mine;
    assert PhaseInv(s, t);
    var f :| HasFate(s, c, f);
    assert InFlight(s, c, t);
  }

  /** The caller that stores its client hands it over from flight to the pool. */
  lemma {:induction false} StoreStep(s: Sys, s': Sys, t: nat)
    requires Inv(s) && Exec(s, Recheck(t)) == Some(s')
    requires PhaseOf(s, t).key !in s.pool.conn
    ensures Inv(s')
  {
    hide Accounted;
    var mine := PhaseOf(s, t).mine;
    MineIsFlying(s, t);
    assert PhaseInv(s, t);
    assert forall d :: Closes(s', d) == Closes(s, d);
    hide Closes;
    assert forall d :: d != mine ==> Kept(s', d) == Kept(s, d);
    assert PhaseInv(s', t);
    hide PhaseInv;
    Holds(s', mine, InPool);
    OneMoves(s, s', t, mine);
  }

  lemma {:induction false} LoserStep(s: Sys, s': Sys, t: nat)
    requires Inv(s) && Exec(s, CloseLoser(t)) == Some(s')
    ensures Inv(s')
  {
    hide Accounted;
    var mine := PhaseOf(s, t).mine;
    MineIsFlying(s, t);
    assert PhaseInv(s, t);
    forall d ensures Closes(s', d) == Closes(s, d) + (if d == mine then 1 else 0) {
      ClosesMore(s.pool.closed, mine, d);
    }
    hide Closes;
    assert forall d :: Kept(s', d) == Kept(s, d);
    assert PhaseInv(s', t);
    hide PhaseInv;
    Holds(s', mine, ClosedOnce);
    OneMoves(s, s', t, mine);
  }

  /** What dropping a key changes. */
  lemma {:induction false} DroppedChanges(s: Sys, s': Sys, k: string)
    requires Inv(s) && s' == s.(pool := Dropped(s.pool, k)) && k in s.pool.conn
    ensures var gone := s.pool.conn[k];
            && HasFate(s, gone, InPool) && gone in s.dialed && s.dialed[gone] == k && !Kept(s', gone)
            && (forall d :: Closes(s', d) == Closes(s, d) + (if d == gone then 1 else 0))
            && (forall d :: d != gone ==> Kept(s', d) == Kept(s, d))
  {
    hide PhaseInv;
    var gone := s.pool.conn[k];
    var f :| HasFate(s, gone, f);
    assert Kept(s, gone) && f.InPool?;
    forall d ensures Closes(s', d) == Closes(s, d) + (if d == gone then 1 else 0) {
      ClosesMore(s.pool.closed, gone, d);
    }
  }

  /** Dropping a key closes exactly what was stored under it. */
  lemma {:induction false} DroppedKeeps(s: Sys, s': Sys, k: string)
    requires Inv(s) && s' == s.(pool := Dropped(s.pool, k))
    ensures Inv(s') && k !in s'.pool.conn && Grows(s, s')
    ensures forall c :: c in s.dialed && s.dialed[c] == k && Kept(s, c) ==> Closes(s', c) == 1
  {
    hide PhaseInv;
    hide Closes;
    if k in s.pool.conn {
      var gone := s.pool.conn[k];
      DroppedChanges(s, s', k);
      assert OwnKeys(s');
      assert forall c :: c in s.dialed && s.dialed[c] == k && Kept(s, c) ==> c == gone;
      hide Kept;
      assert forall d, u :: InFlight(s', d, u) == InFlight(s, d, u);
      forall d | d in s'.dialed ensures Accounted(s', d) {
        if d == gone {
          Holds(s', d, ClosedOnce);
        } else {
          var g :| HasFate(s, d, g);
          assert HasFate(s', d, g);
        }
      }
      forall u ensures PhaseInv(s', u) {
        OthersKeepPhase(s, s', u);
      }
    }
  }

  lemma {:induction false} DropStep(s: Sys, s': Sys, t: nat)
    requires Inv(s) && Exec(s, Drop(t)) == Some(s')
    ensures Inv(s')
  {
    hide Accounted;
    var p := PhaseOf(s, t);
    var mid := s.(pool := Dropped(s.pool, p.key));
    assert PhaseInv(s, t);
    DroppedKeeps(s, mid, p.key);
    hide Closes;
    assert PhaseInv(s', t) by {
      assert Closes(mid, p.client) > 0;
      SamePoolSameCloses(mid, s', p.client);
    }
    QuietStep(mid, s', t);
  }

  lemma {:induction false} SamePoolSameCloses(s: Sys, s': Sys, c: Client)
    requires s.pool == s'.pool
    ensures Closes(s', c) == Closes(s, c)
  {
  }

  lemma {:induction false} CloseStep(s: Sys, order: seq<string>)
    requires Inv(s)
    ensures Inv(s.(pool := DroppedAll(s.pool, order))) && Grows(s, s.(pool := DroppedAll(s.pool, order)))
  {
    hide PhaseInv;
    hide Accounted;
    hide Closes;
    hide Kept;
    if order == [] {
      assert s.(pool := s.pool) == s;
    } else {
      var n := |order| - 1;
      var mid := s.(pool := DroppedAll(s.pool, order[..n]));
      CloseStep(s, order[..n]);
      DroppedKeeps(mid, mid.(pool := Dropped(mid.pool, order[n])), order[n]);
    }
  }

  lemma {:induction false} StepKeepsInv(s: Sys, e: Event, s': Sys)
    requires Inv(s) && Exec(s, e) == Some(s')
    ensures Inv(s')
  {
    hide Inv;
    match e
    case Check(t) => CheckStep(s, s', t);
    case DialOk(t, c) => DialStep(s, s', t, c);
    case Recheck(t) => RecheckStep(s, s', t);
    case CloseLoser(t) => LoserStep(s, s', t);
    case Drop(t) => DropStep(s, s', t);
    case CloseAll(order) => CloseStep(s, order);
    case _ => PlainStep(s, s', e);
  }

  lemma {:induction false} RunKeepsInv(events: seq<Event>, s: Sys)
    requires Run(events) == Some(s)
    ensures Inv(s)
  {
    hide Inv;
    hide Exec;
    if events == [] {
      InitialInv();
    } else {
      var before := Run(events[..|events| - 1]).value;
      RunKeepsInv(events[..|events| - 1], before);
      StepKeepsInv(before, events[|events| - 1], s);
    }
  }

  lemma {:induction false} InitialInv()
    ensures Inv(INITIAL)
  {
  }

  // --------------------------------------------------------------- main results

  /** In every interleaving each dialled client is in exactly one of three states: in one caller's
      hands, stored under the key it was dialled for, or closed by the pool exactly once. What is
      stored under a key was dialled for that key. */
  lemma {:induction false} EveryClientAccounted(events: seq<Event>, s: Sys)
    requires Run(events) == Some(s)
    ensures forall c :: c in s.dialed ==> Accounted(s, c)
    ensures forall c :: c in s.pool.closed ==> c in s.dialed && Closes(s, c) == 1
    ensures OwnKeys(s)
  {
    hide PhaseInv;
    RunKeepsInv(events, s);
    forall c | c in s.pool.closed ensures c in s.dialed && Closes(s, c) == 1 {
      assert Closes(s, c) > 0;
      if c in s.dialed {
        var f :| HasFate(s, c, f);
      }
    }
  }

  /** Any client a caller gets was dialled for the caller's key, and was the one stored under it when
      the caller left its last critical section. */
  lemma {:induction false} GotWasStored(events: seq<Event>, s: Sys, t: nat)
    requires Run(events) == Some(s) && PhaseOf(s, t).Got?
    ensures var p := PhaseOf(s, t);
            && p.client in s.dialed && s.dialed[p.client] == p.key
            && t in s.last && p.key in s.last[t] && s.last[t][p.key] == p.client
            && (Kept(s, p.client) || Closes(s, p.client) == 1)
  {
    EveryClientAccounted(events, s);
    RunKeepsInv(events, s);
    assert PhaseInv(s, t);
  }

  /** The retry works on another connection: the stale one has been closed, and the client of the
      second attempt is a different one. */
  lemma {:induction false} RetryGetsAnotherClient(events: seq<Event>, s: Sys, t: nat)
    requires Run(events) == Some(s) && PhaseOf(s, t).Got? && PhaseOf(s, t).stale.Some?
    ensures PhaseOf(s, t).client != PhaseOf(s, t).stale.value
    ensures Closes(s, PhaseOf(s, t).stale.value) == 1
  {
    RunKeepsInv(events, s);
    EveryClientAccounted(events, s);
    assert PhaseInv(s, t);
  }

  /** dropClient closes whatever is stored under the key. That is the client whose session failed if
      and only if no one dropped it before. */
  lemma {:induction false} DropClosesTheFailedOneIffStillStored(events: seq<Event>, s: Sys, t: nat, s': Sys)
    requires Run(events) == Some(s) && Exec(s, Drop(t)) == Some(s')
    ensures var p := PhaseOf(s, t);
            s'.pool.closed == s.pool.closed + [p.client] <==> Kept(s, p.client)
    ensures var p := PhaseOf(s, t);
            s'.pool.closed == s.pool.closed <==> p.key !in s.pool.conn
  {
    RunKeepsInv(events, s);
    assert PhaseInv(s, t);
    var p := PhaseOf(s, t);
    if p.key in s.pool.conn {
      var c := s.pool.conn[p.key];
      assert s'.pool.closed == s.pool.closed + [c];
      assert (s.pool.closed + [c])[|s.pool.closed|] == c;
      assert s'.pool.closed == s.pool.closed + [p.client] ==> s'.pool.closed[|s.pool.closed|] == p.client;
    } else {
      assert |s.pool.closed + [p.client]| == |s.pool.closed| + 1;
    }
  }

  /** At the moment it returns Close leaves nothing stored; every client dialled until then is closed if
      and only if no caller has a new one in its hands. */
  lemma {:induction false} CloseIsCompleteIffNothingInFlight(events: seq<Event>, s: Sys, order: seq<string>, s': Sys)
    requires Run(events) == Some(s) && Exec(s, CloseAll(order)) == Some(s')
    ensures s'.pool.conn == map[]
    ensures (forall c :: c in s'.dialed ==> c in s'.pool.closed) <==> (forall t :: Mine(PhaseOf(s, t)).None?)
  {
    hide Inv;
    RunKeepsInv(events, s);
    CloseStep(s, order);
    DroppedAllKeeps(s.pool, order);
    assert s'.pool.conn.Keys == {};
    FlyingIsNotClosed(s');
    assert forall t :: PhaseOf(s', t) == PhaseOf(s, t);
  }

  lemma {:induction false} FlyingIsNotClosed(s: Sys)
    requires Inv(s) && s.pool.conn == map[]
    ensures (forall c :: c in s.dialed ==> c in s.pool.closed) <==> (forall t :: Mine(PhaseOf(s, t)).None?)
  {
    if forall t :: Mine(PhaseOf(s, t)).None? {
      hide PhaseInv;
      forall c | c in s.dialed ensures c in s.pool.closed {
        var f :| HasFate(s, c, f);
        assert forall t :: !InFlight(s, c, t);
        assert f != Flying(0);
        assert f.Flying? ==> InFlight(s, c, f.t);
      }
    } else {
      var t :| Mine(PhaseOf(s, t)).Some?;
      MineIsFlying(s, t);
      assert Closes(s, PhaseOf(s, t).mine) == 0;
    }
  }

  // ------------------------------------------------------------- after Close

  /** A caller that may yet store a client: on its way to one, or to a retry after a failed session. */
  predicate CanStore(p: Phase) {
    match p
    case Checking(_, _) => true
    case Dialling(_, _) => true
    case Dialled(_, _, _) => true
    case Dropping(_, _) => true
    case Losing(_, stale, _, _) => stale.None?
    case Got(_, stale, _) => stale.None?
    case Finished => false
  }

  ghost predicate NobodyCanStore(s: Sys) {
    forall t :: !CanStore(PhaseOf(s, t))
  }

  /** Nothing is stored, and every client ever dialled is closed or about to be closed by the caller
      that lost with it. */
  ghost predicate Wound(s: Sys) {
    && s.pool.conn == map[]
    && forall c :: c in s.dialed ==> c in s.pool.closed || exists t :: Loses(s, t, c)
  }

  predicate Loses(s: Sys, t: nat, c: Client) {
    PhaseOf(s, t).Losing? && PhaseOf(s, t).mine == c
  }

  predicate NoBegin(events: seq<Event>) {
    forall e :: e in events ==> !e.Begin?
  }

  lemma {:induction false} WoundWhenNobodyCanStore(s: Sys)
    requires Inv(s) && s.pool.conn == map[] && NobodyCanStore(s)
    ensures Wound(s)
  {
    hide PhaseInv;
    forall c | c in s.dialed ensures c in s.pool.closed || exists t :: Loses(s, t, c) {
      var f :| HasFate(s, c, f);
      if f.Flying? {
        assert InFlight(s, c, f.t) && !CanStore(PhaseOf(s, f.t));
        assert Loses(s, f.t, c);
      }
    }
  }

  lemma {:induction false} NothingToEnumerate(order: seq<string>)
    ensures Enumerates(order, {}) ==> order == []
  {
    if order != [] {
      assert order[0] in order;
    }
  }

  lemma {:induction false} StepWhenNobodyCanStore(s: Sys, e: Event, s': Sys)
    requires s.pool.conn == map[] && NobodyCanStore(s) && !e.Begin? && Exec(s, e) == Some(s')
    ensures s'.pool.conn == map[] && NobodyCanStore(s')
  {
    if e.CloseAll? {
      NothingToEnumerate(e.order);
      assert forall t :: PhaseOf(s', t) == PhaseOf(s, t);
    } else {
      assert !CanStore(PhaseOf(s, e.t));
      forall t ensures !CanStore(PhaseOf(s', t)) {
        assert !CanStore(PhaseOf(s, t));
      }
    }
  }

  lemma {:induction false} StaysWound(s: Sys, more: seq<Event>, s': Sys)
    requires Inv(s) && s.pool.conn == map[] && NobodyCanStore(s)
    requires NoBegin(more) && ExecAll(s, more) == Some(s')
    ensures Wound(s')
    decreases |more|
  {
    if more == [] {
      WoundWhenNobodyCanStore(s);
    } else {
      hide Inv;
      hide Exec;
      hide NobodyCanStore;
      var mid := Exec(s, more[0]).value;
      assert more[0] in more && forall e :: e in more[1..] ==> e in more;
      StepWhenNobodyCanStore(s, more[0], mid);
      StepKeepsInv(s, more[0], mid);
      StaysWound(mid, more[1..], s');
    }
  }

  /** A client no dial has given yet. */
  lemma {:induction false} NewClientExists(dialed: set<Client>) returns (c: Client)
    ensures forall d :: d in dialed ==> d < c
  {
    if dialed == {} {
      c := 0;
    } else {
      var d :| d in dialed;
      var below := NewClientExists(dialed - {d});
      c := if d < below then below else d + 1;
      assert forall x :: x in dialed ==> x == d || x in dialed - {d};
    }
  }

  /** The steps by which a caller that can store does. */
  function WayToStore(p: Phase, t: nat, c: Client): seq<Event> {
    match p
    case Losing(_, _, _, _) => [CloseLoser(t), SessionFail(t), Drop(t), Check(t), DialOk(t, c), Recheck(t)]
    case Got(_, _, _) => [SessionFail(t), Drop(t), Check(t), DialOk(t, c), Recheck(t)]
    case Dropping(_, _) => [Drop(t), Check(t), DialOk(t, c), Recheck(t)]
    case Checking(_, _) => [Check(t), DialOk(t, c), Recheck(t)]
    case Dialling(_, _) => [DialOk(t, c), Recheck(t)]
    case _ => [Recheck(t)]
  }

  lemma {:induction false} ExecFirst(s: Sys, e: Event, rest: seq<Event>, mid: Sys)
    requires Exec(s, e) == Some(mid)
    ensures ExecAll(s, [e] + rest) == ExecAll(mid, rest)
  {
    hide Exec;
    assert ([e] + rest)[1..] == rest;
  }

  /** With an empty pool nothing can stop it. */
  lemma {:induction false} StoresInTheEnd(s: Sys, t: nat, c: Client)
    requires s.pool.conn == map[] && c !in s.dialed && CanStore(PhaseOf(s, t))
    ensures var r := ExecAll(s, WayToStore(PhaseOf(s, t), t, c)); r.Some? && r.value.pool.conn != map[]
    decreases match PhaseOf(s, t)
              case Losing(_, _, _, _) => 5
              case Got(_, _, _) => 4
              case Dropping(_, _) => 3
              case Checking(_, _) => 2
              case Dialling(_, _) => 1
              case _ => 0
  {
    var p := PhaseOf(s, t);
    var way := WayToStore(p, t, c);
    var e := way[0];
    var mid := Exec(s, e).value;
    if p.Dialled? {
      assert way[1..] == [];
      assert p.key in mid.pool.conn;
      hide Exec;
      assert ExecAll(s, way) == ExecAll(mid, []);
    } else if p.Dialling? {
      var last := Exec(mid, Recheck(t)).value;
      assert p.key in last.pool.conn;
      ExecFirst(mid, Recheck(t), [], last);
      ExecFirst(s, e, [Recheck(t)], mid);
      assert [Recheck(t)] + [] == [Recheck(t)] && way == [e] + [Recheck(t)];
    } else {
      assert mid.pool.conn == map[] && mid.dialed == s.dialed && CanStore(PhaseOf(mid, t));
      assert way == [e] + WayToStore(PhaseOf(mid, t), t, c);
      StoresInTheEnd(mid, t, c);
      ExecFirst(s, e, WayToStore(PhaseOf(mid, t), t, c), mid);
    }
  }

  ghost predicate StaysClosed(s: Sys) {
    forall more: seq<Event> :: NoBegin(more) && ExecAll(s, more).Some? ==> Wound(ExecAll(s, more).value)
  }

  lemma {:induction false} FinalIffNobodyCanStore(s: Sys)
    requires Inv(s) && s.pool.conn == map[]
    ensures NobodyCanStore(s) <==> StaysClosed(s)
  {
    hide Inv;
    hide Exec;
    if NobodyCanStore(s) {
      hide CanStore;
      hide ExecAll;
      forall more: seq<Event> | NoBegin(more) && ExecAll(s, more).Some? ensures Wound(ExecAll(s, more).value) {
        StaysWound(s, more, ExecAll(s, more).value);
      }
    } else {
      var t :| CanStore(PhaseOf(s, t));
      hide ExecAll;
      var c := NewClientExists(s.dialed.Keys);
      StoresInTheEnd(s, t, c);
      var way := WayToStore(PhaseOf(s, t), t, c);
      assert NoBegin(way);
      assert !Wound(ExecAll(s, way).value);
    }
  }

  /** Close is final, in that in every continuation without new calls nothing is ever stored again and
      every client ever dialled ends closed, if and only if at Close no caller is on its way to a client:
      checking, dialling, holding a new one, dropping, or still in its first attempt. */
  lemma {:induction false} CloseIsFinalIffNobodyCanStore(events: seq<Event>, s: Sys, order: seq<string>, s': Sys)
    requires Run(events) == Some(s) && Exec(s, CloseAll(order)) == Some(s')
    ensures NobodyCanStore(s) <==>
            forall more: seq<Event> :: NoBegin(more) && ExecAll(s', more).Some? ==> Wound(ExecAll(s', more).value)
  {
    hide Inv;
    hide CanStore;
    hide Wound;
    hide ExecAll;
    RunKeepsInv(events, s);
    StepKeepsInv(s, CloseAll(order), s');
    DroppedAllKeeps(s.pool, order);
    assert s'.pool.conn.Keys == {};
    assert forall t :: PhaseOf(s', t) == PhaseOf(s, t);
    FinalIffNobodyCanStore(s');
  }

  /** A run in which it is not: a dial under way during Close is stored after it, and stays open. */
  lemma {:induction false} DialDuringCloseIsStored(key: string)
    ensures var s := ExecAll(INITIAL, [Begin(1, key), Check(1), CloseAll([]), DialOk(1, 10), Recheck(1)]);
            s.Some? && s.value.pool == PoolState(map[key := 10], [])
  {
    var s1 := At(INITIAL, 1, Checking(key, None));
    var s2 := Section(s1, 1, s1.pool, Dialling(key, None));
    var s4 := At(s2, 1, Dialled(key, None, 10)).(dialed := map[10 := key]);
    var s5 := Section(s4, 1, PoolState(map[key := 10], []), Got(key, None, 10));
    var es := [Begin(1, key), Check(1), CloseAll([]), DialOk(1, 10), Recheck(1)];
    assert Exec(INITIAL, es[0]) == Some(s1) && Exec(s1, es[1]) == Some(s2) && Exec(s2, es[2]) == Some(s2);
    assert Exec(s2, es[3]) == Some(s4) && Exec(s4, es[4]) == Some(s5);
    hide Exec;
    assert ExecAll(s4, es[4..]) == Some(s5);
    assert ExecAll(s2, es[3..]) == Some(s5);
    assert ExecAll(s2, es[2..]) == Some(s5);
    assert ExecAll(s1, es[1..]) == Some(s5);
  }

  ghost function ExecAll(s: Sys, events: seq<Event>): Option<Sys>
    decreases |events|
  {
    if events == [] then Some(s)
    else
      match Exec(s, events[0])
      case None => None
      case Some(mid) => ExecAll(mid, events[1..])
  }

  lemma {:induction false} RunThen(es: seq<Event>, s: Sys, more: seq<Event>)
    requires Run(es) == Some(s)
    ensures Run(es + more) == ExecAll(s, more)
    decreases |more|
  {
    hide Exec;
    if more == [] {
      assert es + more == es;
    } else {
      var next := es + [more[0]];
      assert next[..|es|] == es;
      assert es + more == next + more[1..];
      if Exec(s, more[0]).Some? {
        RunThen(next, Exec(s, more[0]).value, more[1..]);
      } else {
        NoRunAfter(next, more[1..]);
      }
    }
  }

  lemma {:induction false} NoRunAfter(es: seq<Event>, more: seq<Event>)
    requires Run(es).None?
    ensures Run(es + more).None?
  {
    hide Exec;
    if more == [] {
      assert es + more == es;
    } else {
      var n := |more| - 1;
      assert (es + more)[..|es + more| - 1] == es + more[..n];
      NoRunAfter(es, more[..n]);
    }
  }

  function RaceStart(key: string): seq<Event> {
    [Begin(1, key), Check(1), DialOk(1, 10), Recheck(1), SessionFail(1)]
  }

  function RaceMiddle(key: string): seq<Event> {
    [Begin(2, key), Check(2), SessionFail(2), Drop(2)]
  }

  const RACE_END := [Check(2), DialOk(2, 20), Recheck(2)]

  /** That a client was stored when it was handed out does not mean that it still is: here caller 1's
      late drop closes the new connection of caller 2, which caller 1 never used. */
  lemma {:induction false} LateDropClosesAnothersClient(key: string)
    ensures var s := Run(RaceStart(key) + RaceMiddle(key) + RACE_END);
            && s.Some?
            && PhaseOf(s.value, 1) == Dropping(key, 10) && PhaseOf(s.value, 2) == Got(key, Some(10), 20)
            && Exec(s.value, Drop(1)).Some?
            && Exec(s.value, Drop(1)).value.pool == PoolState(map[], [10, 20])
  {
    RaceStarts(key);
    var s1 := ExecAll(INITIAL, RaceStart(key)).value;
    RunThen([], INITIAL, RaceStart(key));
    assert [] + RaceStart(key) == RaceStart(key);
    RaceGoesOn(key, s1);
    var s2 := ExecAll(s1, RaceMiddle(key)).value;
    RunThen(RaceStart(key), s1, RaceMiddle(key));
    RunThen(RaceStart(key) + RaceMiddle(key), s2, RACE_END);
    RaceEnds(key, s2);
  }

  lemma {:induction false} RaceStarts(key: string)
    ensures var r := ExecAll(INITIAL, RaceStart(key));
            && r.Some? && r.value.pool == PoolState(map[key := 10], []) && r.value.dialed == map[10 := key]
            && r.value.callers == map[1 := Dropping(key, 10)]
  {
    var es := RaceStart(key);
    var s1 := At(INITIAL, 1, Checking(key, None));
    var s2 := Section(s1, 1, s1.pool, Dialling(key, None));
    var s3 := At(s2, 1, Dialled(key, None, 10)).(dialed := map[10 := key]);
    var s4 := Section(s3, 1, PoolState(map[key := 10], []), Got(key, None, 10));
    var s5 := At(s4, 1, Dropping(key, 10));
    assert Exec(INITIAL, es[0]) == Some(s1) && Exec(s1, es[1]) == Some(s2);
    assert Exec(s2, es[2]) == Some(s3) && Exec(s3, es[3]) == Some(s4) && Exec(s4, es[4]) == Some(s5);
    hide Exec;
    assert ExecAll(s4, es[4..]) == Some(s5);
    assert ExecAll(s3, es[3..]) == Some(s5);
    assert ExecAll(s2, es[2..]) == Some(s5);
    assert ExecAll(s1, es[1..]) == Some(s5);
  }

  lemma {:induction false} RaceGoesOn(key: string, s: Sys)
    requires s.pool == PoolState(map[key := 10], []) && s.dialed == map[10 := key] && s.callers == map[1 := Dropping(key, 10)]
    ensures var r := ExecAll(s, RaceMiddle(key));
            && r.Some? && r.value.pool == PoolState(map[], [10]) && r.value.dialed == map[10 := key]
            && r.value.callers == map[1 := Dropping(key, 10), 2 := Checking(key, Some(10))]
  {
    var es := RaceMiddle(key);
    var s1 := At(s, 2, Checking(key, None));
    var s2 := Section(s1, 2, s1.pool, Got(key, None, 10));
    var s3 := At(s2, 2, Dropping(key, 10));
    var s4 := Section(s3, 2, PoolState(map[], [10]), Checking(key, Some(10)));
    assert Exec(s, es[0]) == Some(s1) && Exec(s1, es[1]) == Some(s2) && Exec(s2, es[2]) == Some(s3);
    DropsTen(key, s3);
    hide Exec;
    assert ExecAll(s3, es[3..]) == Some(s4);
    assert ExecAll(s2, es[2..]) == Some(s4);
    assert ExecAll(s1, es[1..]) == Some(s4);
  }

  lemma {:induction false} DropsTen(key: string, s: Sys)
    requires s.pool == PoolState(map[key := 10], []) && PhaseOf(s, 2) == Dropping(key, 10)
    ensures Exec(s, Drop(2)) == Some(Section(s, 2, PoolState(map[], [10]), Checking(key, Some(10))))
  {
    assert Dropped(s.pool, key) == PoolState(map[], [10]);
  }

  lemma {:induction false} RaceEnds(key: string, s: Sys)
    requires s.pool == PoolState(map[], [10]) && s.dialed == map[10 := key]
    requires s.callers == map[1 := Dropping(key, 10), 2 := Checking(key, Some(10))]
    ensures var r := ExecAll(s, RACE_END);
            && r.Some?
            && PhaseOf(r.value, 1) == Dropping(key, 10) && PhaseOf(r.value, 2) == Got(key, Some(10), 20)
            && Exec(r.value, Drop(1)).Some?
            && Exec(r.value, Drop(1)).value.pool == PoolState(map[], [10, 20])
  {
    var es := RACE_END;
    var s1 := Section(s, 2, s.pool, Dialling(key, Some(10)));
    var s2 := At(s1, 2, Dialled(key, Some(10), 20)).(dialed := s.dialed[20 := key]);
    var s3 := Section(s2, 2, PoolState(map[key := 20], [10]), Got(key, Some(10), 20));
    assert Exec(s, es[0]) == Some(s1) && Exec(s1, es[1]) == Some(s2) && Exec(s2, es[2]) == Some(s3);
    DropsTwenty(key, s3);
    hide Exec;
    assert ExecAll(s2, es[2..]) == Some(s3);
    assert ExecAll(s1, es[1..]) == Some(s3);
  }

  lemma {:induction false} DropsTwenty(key: string, s: Sys)
    requires s.pool == PoolState(map[key := 20], [10]) && PhaseOf(s, 1) == Dropping(key, 10)
    ensures Exec(s, Drop(1)).Some? && Exec(s, Drop(1)).value.pool == PoolState(map[], [10, 20])
  {
    assert Dropped(s.pool, key) == PoolState(map[], [10, 20]);
  }

  // -------------------------------------------------------------------- the key

  datatype Target = Target(host: string, port: nat, user: string, keyPath: string)

  /** addr: port 0 stands for 22. */
  function Port(t: Target): nat {
    if t.port == 0 then 22 else t.port
  }

  function AddrOf(t: Target): string {
    t.host + [':'] + NatText(Port(t))
  }

  function PoolKey(t: Target): string {
    AddrOf(t) + ['|'] + t.user + ['|'] + t.keyPath
  }

  predicate SameEndpoint(a: Target, b: Target) {
    a.host == b.host && Port(a) == Port(b) && a.user == b.user && a.keyPath == b.keyPath
  }

  ghost predicate KeyIsItsOwn(t: Target) {
    forall u: Target :: '|' !in u.host && PoolKey(u) == PoolKey(t) ==> SameEndpoint(t, u)
  }

  /** Two endpoints never share a connection under one key, if and only if no '|' is in the user name
      or the key path (host names hold none). */
  lemma {:induction false} KeyIsItsOwnIffNoBar(t: Target)
    requires '|' !in t.host
    ensures KeyIsItsOwn(t) <==> '|' !in t.user && '|' !in t.keyPath
  {
    hide NatText;
    if '|' in t.user {
      var i := IndexOf(t.user, '|');
      var u := t.(user := t.user[..i], keyPath := t.user[i + 1..] + ['|'] + t.keyPath);
      assert t.user == t.user[..i] + ['|'] + t.user[i + 1..];
      Regroup(AddrOf(t), t.user[..i], t.user[i + 1..], t.keyPath);
      assert PoolKey(u) == PoolKey(t);
    } else if '|' in t.keyPath {
      var i := IndexOf(t.keyPath, '|');
      var u := t.(user := t.user + ['|'] + t.keyPath[..i], keyPath := t.keyPath[i + 1..]);
      assert t.keyPath == t.keyPath[..i] + ['|'] + t.keyPath[i + 1..];
      Regroup(AddrOf(t), t.user, t.keyPath[..i], t.keyPath[i + 1..]);
      assert PoolKey(u) == PoolKey(t);
    } else {
      forall u: Target | '|' !in u.host && PoolKey(u) == PoolKey(t) ensures SameEndpoint(t, u) {
        SameKeySameEndpoint(t, u);
      }
    }
  }

  lemma {:induction false} Regroup(addr: string, a: string, b: string, c: string)
    ensures addr + ['|'] + a + ['|'] + (b + ['|'] + c) == addr + ['|'] + (a + ['|'] + b) + ['|'] + c
  {
  }

  lemma {:induction false} SameKeySameEndpoint(t: Target, u: Target)
    requires '|' !in t.host && '|' !in u.host && '|' !in t.user && '|' !in t.keyPath && PoolKey(u) == PoolKey(t)
    ensures SameEndpoint(t, u)
  {
    hide NatText;
    FirstBar(t);
    FirstBar(u);
    var t', u' := t.user + (['|'] + t.keyPath), u.user + (['|'] + u.keyPath);
    CutAtFirst(AddrOf(t), t', AddrOf(u), u', '|');
    assert t' == t.user + ['|'] + t.keyPath && u' == u.user + ['|'] + u.keyPath;
    CutOnce(t.user, t.keyPath, u.user, u.keyPath, '|');
    SameAddr(t.host, Port(t), u.host, Port(u));
  }

  /** A string that holds `c` once can be cut at `c` in one way. */
  lemma {:induction false} CutOnce(a: string, b: string, a': string, b': string, c: char)
    requires c !in a && c !in b && a + [c] + b == a' + [c] + b'
    ensures a == a' && b == b'
  {
    if |a| < |a'| {
      LongerHolds(a, b, a', b', c);
    } else if |a'| < |a| {
      LongerHolds(a', b', a, b, c);
    } else {
      var line := a + [c] + b;
      assert line[..|a|] == a && line[..|a|] == a';
      assert line[|a| + 1..] == b && line[|a| + 1..] == b';
    }
  }

  lemma {:induction false} LongerHolds(a: string, b: string, a': string, b': string, c: char)
    requires a + [c] + b == a' + [c] + b' && |a| < |a'|
    ensures c in a' && c in b
  {
    var line := a + [c] + b;
    assert line[|a|] == c && line[|a|] == a'[|a|];
    assert (a' + [c] + b')[|a'|] == c && line[|a'|] == b[|a'| - |a| - 1];
  }

  lemma {:induction false} FirstBar(t: Target)
    requires '|' !in t.host
    ensures '|' !in AddrOf(t) && PoolKey(t) == AddrOf(t) + ['|'] + (t.user + (['|'] + t.keyPath))
  {
    hide NatText;
  }

  lemma {:induction false} CutAtFirst(a: string, b: string, a': string, b': string, c: char)
    requires c !in a && c !in a' && a + [c] + b == a' + [c] + b'
    ensures a == a' && b == b'
  {
    IndexOfAppend(a, c, b);
    IndexOfAppend(a', c, b');
    var line := a + [c] + b;
    assert line[..|a|] == a && line[..|a|] == a';
    assert line[|a| + 1..] == b && line[|a| + 1..] == b';
  }

  /** The port is after the last ':', so a ':' in the host does no harm. */
  lemma {:induction false} SameAddr(h1: string, p1: nat, h2: string, p2: nat)
    requires h1 + [':'] + NatText(p1) == h2 + [':'] + NatText(p2)
    ensures h1 == h2 && p1 == p2
  {
    var n1, n2 := NatText(p1), NatText(p2);
    NatTextValue(p1);
    NatTextValue(p2);
    hide NatText;
    hide DigitsValue;
    if |h1| < |h2| {
      LongerHolds(h1, n1, h2, n2, ':');
    } else if |h2| < |h1| {
      LongerHolds(h2, n2, h1, n1, ':');
    } else {
      var line := h1 + [':'] + n1;
      assert line[..|h1|] == h1 && line[..|h1|] == h2;
      assert line[|h1| + 1..] == n1 && line[|h1| + 1..] == n2;
    }
  }
}
