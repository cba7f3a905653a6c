/** The blocklist store and its replicas: a table with an audit log, a Redis set kept in step by queued
    commands, and proxies that reload the set on every notification they receive. */
module BlocklistStore {
  import opened Verdicts
  import opened Text
  import opened Labels
  import opened HostPort
  import opened BlocklistTrie

  datatype Row = Row(enabled: bool, comment: string, createdBy: string, updatedBy: string)

  datatype AuditAction = Added | Updated | Enabled | Disabled | Removed

  datatype AuditEntry = AuditEntry(domain: string, action: AuditAction, actor: string, comment: string)

  datatype Cmd = SAdd(domains: set<string>) | SRem(domain: string) | Del | Publish(msg: string)

  datatype Request =
    | Add(domain: string, comment: string, actor: string)
    | Update(domain: string, newEnabled: Option<bool>, newComment: Option<string>, actor: string)
    | Remove(domain: string, actor: string, comment: string)

  datatype Reply = Ok(row: Option<Row>) | ErrDuplicate | ErrNotFound

  datatype Db = Db(table: map<string, Row>, audit: seq<AuditEntry>)

  function OrElse<T>(o: Option<T>, default: T): T {
    if o.Some? then o.value else default
  }

  /** One transaction: the new database, the Redis commands issued after the commit, and the reply. */
  function Serve(db: Db, req: Request): (Db, seq<Cmd>, Reply) {
    match req
    case Add(d, comment, actor) =>
      if d in db.table then (db, [], ErrDuplicate)
      else
        var row := Row(true, comment, actor, actor);
        (Db(db.table[d := row], db.audit + [AuditEntry(d, Added, actor, comment)]),
         [SAdd({d}), Publish("add:" + d)], Ok(Some(row)))
    case Update(d, enabled, comment, actor) =>
      if d !in db.table then (db, [], ErrNotFound)
      else
        var was := db.table[d];
        var row := was.(enabled := OrElse(enabled, was.enabled), comment := OrElse(comment, was.comment), updatedBy := actor);
        var action := if enabled.None? then Updated else if enabled.value then Enabled else Disabled;
        (Db(db.table[d := row], db.audit + [AuditEntry(d, action, actor, OrElse(comment, ""))]),
         if enabled.None? then []
         else if enabled.value then [SAdd({d}), Publish("enable:" + d)]
         else [SRem(d), Publish("disable:" + d)],
         Ok(Some(row)))
    case Remove(d, actor, comment) =>
      if d !in db.table then (db, [], ErrNotFound)
      else
        (Db(db.table - {d}, db.audit + [AuditEntry(d, Removed, actor, comment)]),
         [SRem(d), Publish("remove:" + d)], Ok(None))
  }

  function EnabledDomains(table: map<string, Row>): set<string> {
    set d | d in table && table[d].enabled
  }

  /** What syncToRedis issues: the set is deleted and rebuilt from the enabled rows. */
  function Resync(table: map<string, Row>): seq<Cmd> {
    [Del] + (if EnabledDomains(table) == {} then [] else [SAdd(EnabledDomains(table))]) + [Publish("sync")]
  }

  class Store {
    var table: map<string, Row>
    var audit: seq<AuditEntry>
    var issued: seq<Cmd>  // the Redis commands issued so far

    constructor ()
      ensures View() == Db(map[], []) && issued == []
    {
      table, audit, issued := map[], [], [];
    }

    function View(): Db
      reads this
    {
      Db(table, audit)
    }

    /** A refused request changes nothing. */
    twostate predicate Untouched()
      reads this
    {
      table == old(table) && audit == old(audit) && issued == old(issued)
    }

    /** No other row changes, and one entry is added to the audit log. */
    twostate predicate OnlyTouches(domain: string, entry: AuditEntry)
      reads this
    {
      && (forall d :: d != domain ==> (d in table <==> d in old(table)))
      && (forall d :: d != domain && d in table ==> table[d] == old(table)[d])
      && audit == old(audit) + [entry]
    }

    /** A new row is enabled, and its domain joins the set; a row that is there is a duplicate. */
    method AddEntry(domain: string, comment: string, actor: string) returns (reply: Reply)
      modifies this
      ensures reply.ErrDuplicate? <==> domain in old(table)
      ensures !reply.ErrDuplicate? ==>
        && domain in table && table[domain] == Row(true, comment, actor, actor) && reply == Ok(Some(table[domain]))
        && OnlyTouches(domain, AuditEntry(domain, Added, actor, comment))
        && issued == old(issued) + [SAdd({domain}), Publish("add:" + domain)]
      ensures reply.ErrDuplicate? ==> Untouched()
      ensures var served := Serve(old(View()), Add(domain, comment, actor));
        View() == served.0 && issued == old(issued) + served.1 && reply == served.2
    {
      if domain in table {
        return ErrDuplicate;
      }
      var row := Row(true, comment, actor, actor);
      table := table[domain := row];
      audit := audit + [AuditEntry(domain, Added, actor, comment)];
      issued := issued + [SAdd({domain}), Publish("add:" + domain)];
      return Ok(Some(row));
    }

    /** The flag and the comment are the requested ones or else the old ones; the set follows the flag if one
        was requested. */
    method UpdateEntry(domain: string, enabled: Option<bool>, comment: Option<string>, actor: string) returns (reply: Reply)
      modifies this
      ensures reply.ErrNotFound? <==> domain !in old(table)
      ensures reply.ErrNotFound? ==> Untouched()
      ensures !reply.ErrNotFound? ==>
        && domain in table && reply == Ok(Some(table[domain]))
        && table[domain].createdBy == old(table)[domain].createdBy && table[domain].updatedBy == actor
      ensures !reply.ErrNotFound? && enabled == None ==>
        && table[domain].enabled == old(table)[domain].enabled && issued == old(issued)
        && OnlyTouches(domain, AuditEntry(domain, Updated, actor, if comment.Some? then comment.value else ""))
      ensures !reply.ErrNotFound? && enabled == Some(true) ==>
        && table[domain].enabled && issued == old(issued) + [SAdd({domain}), Publish("enable:" + domain)]
        && OnlyTouches(domain, AuditEntry(domain, Enabled, actor, if comment.Some? then comment.value else ""))
      ensures !reply.ErrNotFound? && enabled == Some(false) ==>
        && !table[domain].enabled && issued == old(issued) + [SRem(domain), Publish("disable:" + domain)]
        && OnlyTouches(domain, AuditEntry(domain, Disabled, actor, if comment.Some? then comment.value else ""))
      ensures !reply.ErrNotFound? ==>
        table[domain].comment == if comment.Some? then comment.value else old(table)[domain].comment
      ensures var served := Serve(old(View()), Update(domain, enabled, comment, actor));
        View() == served.0 && issued == old(issued) + served.1 && reply == served.2
    {
      if domain !in table {
        return ErrNotFound;
      }
      var row := table[domain];
      if enabled.Some? {
        row := row.(enabled := enabled.value);
      }
      if comment.Some? {
        row := row.(comment := comment.value);
      }
      row := row.(updatedBy := actor);
      table := table[domain := row];
      var action := Updated;
      if enabled.Some? {
        action := if enabled.value then Enabled else Disabled;
      }
      audit := audit + [AuditEntry(domain, action, actor, OrElse(comment, ""))];
      if enabled.Some? {
        if enabled.value {
          issued := issued + [SAdd({domain}), Publish("enable:" + domain)];
        } else {
          issued := issued + [SRem(domain), Publish("disable:" + domain)];
        }
      }
      return Ok(Some(row));
    }

    /** The row is gone, and its domain leaves the set. */
    method RemoveEntry(domain: string, actor: string, comment: string) returns (reply: Reply)
      modifies this
      ensures reply.ErrNotFound? <==> domain !in old(table)
      ensures reply.ErrNotFound? ==> Untouched()
      ensures !reply.ErrNotFound? ==>
        && domain !in table && reply == Ok(None)
        && OnlyTouches(domain, AuditEntry(domain, Removed, actor, comment))
        && issued == old(issued) + [SRem(domain), Publish("remove:" + domain)]
      ensures var served := Serve(old(View()), Remove(domain, actor, comment));
        View() == served.0 && issued == old(issued) + served.1 && reply == served.2
    {
      if domain !in table {
        return ErrNotFound;
      }
      table := table - {domain};
      audit := audit + [AuditEntry(domain, Removed, actor, comment)];
      issued := issued + [SRem(domain), Publish("remove:" + domain)];
      return Ok(None);
    }

    method SyncToRedis()
      modifies this`issued
      ensures issued == old(issued) + Resync(table)
    {
      var members := EnabledDomains(table);
      issued := issued + [Del];
      if members != {} {
        issued := issued + [SAdd(members)];
      }
      issued := issued + [Publish("sync")];
    }
  }

  // The audit log

  function Replay(audit: seq<AuditEntry>): map<string, bool> {
    if audit == [] then map[]
    else
      var before := Replay(audit[..|audit| - 1]);
      var e := audit[|audit| - 1];
      match e.action
      case Added => before[e.domain := true]
      case Enabled => before[e.domain := true]
      case Disabled => before[e.domain := false]
      case Removed => before - {e.domain}
      case Updated => before
  }

  function EnabledMap(table: map<string, Row>): map<string, bool> {
    map d | d in table :: table[d].enabled
  }

  lemma ReplayLast(audit: seq<AuditEntry>, e: AuditEntry)
    ensures Replay(audit + [e]) ==
      match e.action
      case Added => Replay(audit)[e.domain := true]
      case Enabled => Replay(audit)[e.domain := true]
      case Disabled => Replay(audit)[e.domain := false]
      case Removed => Replay(audit) - {e.domain}
      case Updated => Replay(audit)
  {
    assert (audit + [e])[..|audit + [e]| - 1] == audit;
  }

  lemma EnabledMapSet(table: map<string, Row>, d: string, row: Row)
    ensures EnabledMap(table[d := row]) == EnabledMap(table)[d := row.enabled]
    ensures EnabledMap(table - {d}) == EnabledMap(table) - {d}
  {
  }

  lemma ServeKeepsReplay(db: Db, req: Request)
    requires Replay(db.audit) == EnabledMap(db.table)
    ensures Replay(Serve(db, req).0.audit) == EnabledMap(Serve(db, req).0.table)
  {
    var after := Serve(db, req).0;
    if after != db {
      var entry := after.audit[|db.audit|];
      assert after.audit == db.audit + [entry];
      ReplayLast(db.audit, entry);
      if req.Remove? {
        EnabledMapSet(db.table, req.domain, db.table[req.domain]);
      } else {
        EnabledMapSet(db.table, req.domain, after.table[req.domain]);
      }
    }
  }

  // The store, Redis and one replica, interleaved

  /** Redis executes the issued commands in order; a published message reaches the replica if it is
      subscribed; the replica reloads the whole set for every message. */
  datatype World = World(
    db: Db,
    queue: seq<Cmd>,        // issued, not yet executed
    redis: set<string>,
    inbox: seq<string>,     // published, not yet handled by the replica
    subscribed: bool,
    replica: set<string>)   // the members the replica's blocklist was built from

  /** A store that has just connected to whatever Redis held, and a replica that has not loaded it. */
  function Start(redis: set<string>): World {
    World(Db(map[], []), [], redis, [], false, {})
  }

  datatype Event =
    | Serves(req: Request)
    | Synchronises
    | Executes(ok: bool)     // the next issued command, successfully or not
    | Subscribes
    | Disconnects
    | Reloads(ok: bool)      // the load at the start or after a reconnect, before subscribing
    | Handles(ok: bool)      // the load for the next message in the inbox

  function Run1(redis: set<string>, cmd: Cmd): set<string> {
    match cmd
    case SAdd(ds) => redis + ds
    case SRem(d) => redis - {d}
    case Del => {}
    case Publish(_) => redis
  }

  function Drain(redis: set<string>, queue: seq<Cmd>): set<string>
    decreases |queue|
  {
    if queue == [] then redis else Drain(Run1(redis, queue[0]), queue[1..])
  }

  function Execute(w: World, cmd: Cmd): World {
    match cmd
    case Publish(msg) => if w.subscribed then w.(inbox := w.inbox + [msg]) else w
    case _ => w.(redis := Run1(w.redis, cmd))
  }

  function Happens(w: World, e: Event): World {
    match e
    case Serves(req) => w.(db := Serve(w.db, req).0, queue := w.queue + Serve(w.db, req).1)
    case Synchronises => w.(queue := w.queue + Resync(w.db.table))
    case Executes(ok) =>
      if w.queue == [] then w
      else
        var rest := w.(queue := w.queue[1..]);
        if ok then Execute(rest, w.queue[0]) else rest
    case Subscribes => w.(subscribed := true)
    case Disconnects => w.(subscribed := false, inbox := [])
    case Reloads(ok) => if ok then w.(replica := w.redis) else w
    case Handles(ok) =>
      if w.inbox == [] then w
      else
        var rest := w.(inbox := w.inbox[1..]);
        if ok then rest.(replica := w.redis) else rest
  }

  function Unfold(w: World, es: seq<Event>): World
    decreases |es|
  {
    if es == [] then w else Unfold(Happens(w, es[0]), es[1..])
  }

  lemma {:induction false} DrainAppend(redis: set<string>, a: seq<Cmd>, b: seq<Cmd>)
    ensures Drain(redis, a + b) == Drain(Drain(redis, a), b)
    decreases |a|
  {
    if a == [] {
      assert a + b == b;
    } else {
      assert (a + b)[1..] == a[1..] + b;
      DrainAppend(Run1(redis, a[0]), a[1..], b);
    }
  }

  /** Every group of commands ends by publishing. */
  predicate EndsPublishing(queue: seq<Cmd>) {
    queue == [] || queue[|queue| - 1].Publish?
  }

  // What happened during a run

  predicate Loads(w: World, e: Event) {
    e == Reloads(true) || (e == Handles(true) && w.inbox != [])
  }

  /** The set is not the same afterwards. */
  predicate Changes(w: World, e: Event) {
    e == Executes(true) && w.queue != [] && Run1(w.redis, w.queue[0]) != w.redis
  }

  predicate FailsToChange(w: World, e: Event) {
    e == Executes(false) && w.queue != [] && !w.queue[0].Publish?
  }

  /** A message is gone: it cannot be published, nobody is subscribed, the load for it fails, or the
      subscription is closed before it is handled. */
  predicate Loses(w: World, e: Event) {
    || (e.Executes? && w.queue != [] && w.queue[0].Publish? && (!e.ok || !w.subscribed))
    || (e == Handles(false) && w.inbox != [])
    || (e.Disconnects? && w.inbox != [])
  }

  function Before(redis: set<string>, es: seq<Event>, i: nat): World
    requires i < |es|
  {
    Unfold(Start(redis), es[..i])
  }

  predicate LoadsAt(redis: set<string>, es: seq<Event>, i: nat) {
    i < |es| && Loads(Before(redis, es, i), es[i])
  }

  predicate ChangesAt(redis: set<string>, es: seq<Event>, i: nat) {
    i < |es| && Changes(Before(redis, es, i), es[i])
  }

  predicate FailsAt(redis: set<string>, es: seq<Event>, i: nat) {
    i < |es| && FailsToChange(Before(redis, es, i), es[i])
  }

  predicate LosesAt(redis: set<string>, es: seq<Event>, i: nat) {
    i < |es| && Loses(Before(redis, es, i), es[i])
  }

  predicate SynchronisesAt(es: seq<Event>, i: nat) {
    i < |es| && es[i].Synchronises?
  }

  ghost predicate NoLoadAfter(redis: set<string>, es: seq<Event>, i: nat) {
    forall k: nat :: i < k ==> !LoadsAt(redis, es, k)
  }

  ghost predicate NoSyncAfter(es: seq<Event>, i: nat) {
    forall k: nat :: i < k ==> !SynchronisesAt(es, k)
  }

  /** The replica has loaded the set at least once. */
  ghost predicate HasLoaded(redis: set<string>, es: seq<Event>) {
    exists k: nat :: LoadsAt(redis, es, k)
  }

  /** Redis changed after the replica's last load. */
  ghost predicate ChangedSinceLoad(redis: set<string>, es: seq<Event>) {
    exists i: nat :: ChangesAt(redis, es, i) && NoLoadAfter(redis, es, i)
  }

  /** Redis changed, then a message was lost, and the replica has not loaded since the change. */
  ghost predicate Unheard(redis: set<string>, es: seq<Event>) {
    exists i: nat, j: nat :: i < j && ChangesAt(redis, es, i) && LosesAt(redis, es, j) && NoLoadAfter(redis, es, i)
  }

  /** The store has synchronised, and since then no change of the set has failed. */
  ghost predicate Synchronised(redis: set<string>, es: seq<Event>) {
    && (exists k: nat :: SynchronisesAt(es, k))
    && forall i: nat :: FailsAt(redis, es, i) ==> !NoSyncAfter(es, i)
  }

  datatype History = History(synced: bool, loaded: bool, changed: bool, unheard: bool)

  ghost function Told(redis: set<string>, es: seq<Event>): History {
    History(Synchronised(redis, es), HasLoaded(redis, es), ChangedSinceLoad(redis, es), Unheard(redis, es))
  }

  /** How one more event changes the history. */
  function Next(w: World, h: History, e: Event): History {
    History(e.Synchronises? || (h.synced && !FailsToChange(w, e)),
            h.loaded || Loads(w, e),
            !Loads(w, e) && (h.changed || Changes(w, e)),
            !Loads(w, e) && (h.unheard || (h.changed && Loses(w, e))))
  }

  lemma SameBefore(redis: set<string>, es: seq<Event>, e: Event, i: nat)
    ensures i < |es| ==>
      && LoadsAt(redis, es + [e], i) == LoadsAt(redis, es, i)
      && ChangesAt(redis, es + [e], i) == ChangesAt(redis, es, i)
      && FailsAt(redis, es + [e], i) == FailsAt(redis, es, i)
      && LosesAt(redis, es + [e], i) == LosesAt(redis, es, i)
      && SynchronisesAt(es + [e], i) == SynchronisesAt(es, i)
    ensures i == |es| ==> var w := Unfold(Start(redis), es);
      && LoadsAt(redis, es + [e], i) == Loads(w, e) && ChangesAt(redis, es + [e], i) == Changes(w, e)
      && FailsAt(redis, es + [e], i) == FailsToChange(w, e) && LosesAt(redis, es + [e], i) == Loses(w, e)
      && SynchronisesAt(es + [e], i) == e.Synchronises?
  {
    if i < |es| {
      assert (es + [e])[..i] == es[..i];
    } else if i == |es| {
      assert (es + [e])[..i] == es;
    }
  }

  lemma NoLoadAfterSnoc(redis: set<string>, es: seq<Event>, e: Event, i: nat)
    requires i < |es|
    ensures NoLoadAfter(redis, es + [e], i) <==> NoLoadAfter(redis, es, i) && !Loads(Unfold(Start(redis), es), e)
  {
    forall k: nat {
      SameBefore(redis, es, e, k);
    }
    if NoLoadAfter(redis, es + [e], i) {
      assert !LoadsAt(redis, es + [e], |es|);
      forall k: nat | i < k ensures !LoadsAt(redis, es, k) {
        assert !LoadsAt(redis, es + [e], k);
      }
    }
  }

  lemma LoadedSnoc(redis: set<string>, es: seq<Event>, e: Event)
    ensures HasLoaded(redis, es + [e]) <==> HasLoaded(redis, es) || Loads(Unfold(Start(redis), es), e)
  {
    forall k: nat {
      SameBefore(redis, es, e, k);
    }
    if HasLoaded(redis, es) {
      var k: nat :| LoadsAt(redis, es, k);
      assert LoadsAt(redis, es + [e], k);
    }
    if Loads(Unfold(Start(redis), es), e) {
      assert LoadsAt(redis, es + [e], |es|);
    }
  }

  lemma ChangedSnoc(redis: set<string>, es: seq<Event>, e: Event)
    ensures var w := Unfold(Start(redis), es);
      ChangedSinceLoad(redis, es + [e]) <==> !Loads(w, e) && (ChangedSinceLoad(redis, es) || Changes(w, e))
  {
    var w := Unfold(Start(redis), es);
    if ChangedSinceLoad(redis, es + [e]) {
      var i: nat :| ChangesAt(redis, es + [e], i) && NoLoadAfter(redis, es + [e], i);
      SameBefore(redis, es, e, i);
      if i < |es| {
        NoLoadAfterSnoc(redis, es, e, i);
      }
    }
    if ChangedSinceLoad(redis, es) && !Loads(w, e) {
      var i: nat :| ChangesAt(redis, es, i) && NoLoadAfter(redis, es, i);
      SameBefore(redis, es, e, i);
      NoLoadAfterSnoc(redis, es, e, i);
    }
    if Changes(w, e) {
      SameBefore(redis, es, e, |es|);
      assert NoLoadAfter(redis, es + [e], |es|);
    }
  }

  lemma UnheardSnoc(redis: set<string>, es: seq<Event>, e: Event)
    ensures var w := Unfold(Start(redis), es);
      Unheard(redis, es + [e]) <==> !Loads(w, e) && (Unheard(redis, es) || (ChangedSinceLoad(redis, es) && Loses(w, e)))
  {
    var w := Unfold(Start(redis), es);
    if Unheard(redis, es + [e]) {
      var i: nat, j: nat :| i < j && ChangesAt(redis, es + [e], i) && LosesAt(redis, es + [e], j) && NoLoadAfter(redis, es + [e], i);
      SameBefore(redis, es, e, i);
      SameBefore(redis, es, e, j);
      NoLoadAfterSnoc(redis, es, e, i);
    }
    if Unheard(redis, es) && !Loads(w, e) {
      var i: nat, j: nat :| i < j && ChangesAt(redis, es, i) && LosesAt(redis, es, j) && NoLoadAfter(redis, es, i);
      SameBefore(redis, es, e, i);
      SameBefore(redis, es, e, j);
      NoLoadAfterSnoc(redis, es, e, i);
    }
    if ChangedSinceLoad(redis, es) && Loses(w, e) {
      var i: nat :| ChangesAt(redis, es, i) && NoLoadAfter(redis, es, i);
      SameBefore(redis, es, e, i);
      SameBefore(redis, es, e, |es|);
      NoLoadAfterSnoc(redis, es, e, i);
    }
  }

  lemma SyncedSnoc(redis: set<string>, es: seq<Event>, e: Event)
    ensures Synchronised(redis, es + [e]) <==>
      e.Synchronises? || (Synchronised(redis, es) && !FailsToChange(Unfold(Start(redis), es), e))
  {
    var more, n := es + [e], |es|;
    forall k: nat {
      SameBefore(redis, es, e, k);
    }
    if e.Synchronises? {
      assert SynchronisesAt(more, n);
    }
    if Synchronised(redis, es) {
      var k: nat :| SynchronisesAt(es, k);
      assert SynchronisesAt(more, k);
    }
    forall i: nat | i < n ensures NoSyncAfter(more, i) <==> NoSyncAfter(es, i) && !e.Synchronises? {
      if NoSyncAfter(more, i) {
        assert !SynchronisesAt(more, n);
        forall k: nat | i < k ensures !SynchronisesAt(es, k) {
          assert !SynchronisesAt(more, k);
        }
      }
    }
    if Synchronised(redis, more) && !e.Synchronises? {
      forall i: nat | FailsAt(redis, es, i) ensures !NoSyncAfter(es, i) {
        assert FailsAt(redis, more, i);
      }
      assert FailsAt(redis, more, n) ==> NoSyncAfter(more, n);
    }
  }

  lemma ToldSnoc(redis: set<string>, es: seq<Event>, e: Event)
    ensures Told(redis, es + [e]) == Next(Unfold(Start(redis), es), Told(redis, es), e)
  {
    LoadedSnoc(redis, es, e);
    ChangedSnoc(redis, es, e);
    UnheardSnoc(redis, es, e);
    SyncedSnoc(redis, es, e);
  }

  // What every run keeps

  predicate Tracks(w: World, h: History) {
    && Replay(w.db.audit) == EnabledMap(w.db.table)
    && (h.synced ==> Drain(w.redis, w.queue) == EnabledDomains(w.db.table))
    && EndsPublishing(w.queue)
    && (h.loaded && !h.changed ==> w.replica == w.redis)
    && (h.unheard ==> h.changed)
    && (h.changed ==> h.unheard || w.inbox != [] || w.queue != [])
    && (!w.subscribed ==> w.inbox == [])
  }

  lemma ServeDrains(db: Db, req: Request, redis: set<string>)
    requires redis == EnabledDomains(db.table)
    ensures Drain(redis, Serve(db, req).1) == EnabledDomains(Serve(db, req).0.table)
    ensures EndsPublishing(Serve(db, req).1)
  {
    var cmds := Serve(db, req).1;
    if cmds != [] {
      assert cmds[1..] == [cmds[1]];
      assert Drain(redis, cmds) == Drain(Run1(redis, cmds[0]), [cmds[1]]);
      assert Drain(Run1(redis, cmds[0]), [cmds[1]]) == Run1(redis, cmds[0]);
    }
  }

  lemma ResyncDrains(redis: set<string>, table: map<string, Row>)
    ensures Drain(redis, Resync(table)) == EnabledDomains(table)
    ensures EndsPublishing(Resync(table)) && Resync(table) != []
  {
    var members := EnabledDomains(table);
    assert Drain(members, [Publish("sync")]) == members;
    if members == {} {
      assert Resync(table)[1..] == [Publish("sync")];
    } else {
      assert Resync(table)[1..] == [SAdd(members), Publish("sync")];
      assert [SAdd(members), Publish("sync")][1..] == [Publish("sync")];
      assert Drain({}, [SAdd(members), Publish("sync")]) == Drain({} + members, [Publish("sync")]);
    }
  }

  lemma ServesTracks(w: World, h: History, req: Request)
    requires Tracks(w, h)
    ensures Tracks(Happens(w, Serves(req)), Next(w, h, Serves(req)))
  {
    ServeKeepsReplay(w.db, req);
    DrainAppend(w.redis, w.queue, Serve(w.db, req).1);
    ServeDrains(w.db, req, EnabledDomains(w.db.table));
  }

  lemma SynchronisesTracks(w: World, h: History)
    requires Tracks(w, h)
    ensures Tracks(Happens(w, Synchronises), Next(w, h, Synchronises))
  {
    DrainAppend(w.redis, w.queue, Resync(w.db.table));
    ResyncDrains(Drain(w.redis, w.queue), w.db.table);
  }

  lemma ExecutesTracks(w: World, h: History, ok: bool)
    requires Tracks(w, h)
    ensures Tracks(Happens(w, Executes(ok)), Next(w, h, Executes(ok)))
  {
    if |w.queue| > 1 {
      assert w.queue[1..][|w.queue| - 2] == w.queue[|w.queue| - 1];
    }
  }

  lemma ReplicaTracks(w: World, h: History, e: Event)
    requires Tracks(w, h) && (e.Subscribes? || e.Disconnects? || e.Reloads? || e.Handles?)
    ensures Tracks(Happens(w, e), Next(w, h, e))
  {
  }

  lemma HappensTracks(w: World, h: History, e: Event)
    requires Tracks(w, h)
    ensures Tracks(Happens(w, e), Next(w, h, e))
  {
    match e
    case Serves(req) => ServesTracks(w, h, req);
    case Synchronises => SynchronisesTracks(w, h);
    case Executes(ok) => ExecutesTracks(w, h, ok);
    case _ => ReplicaTracks(w, h, e);
  }

  lemma {:induction false} UnfoldSplit(w: World, a: seq<Event>, b: seq<Event>)
    ensures Unfold(w, a + b) == Unfold(Unfold(w, a), b)
    decreases |a|
  {
    if a == [] {
      assert a + b == b;
    } else {
      assert (a + b)[1..] == a[1..] + b;
      UnfoldSplit(Happens(w, a[0]), a[1..], b);
    }
  }

  lemma UnfoldSnoc(w: World, es: seq<Event>, e: Event)
    ensures Unfold(w, es + [e]) == Happens(Unfold(w, es), e)
  {
    UnfoldSplit(w, es, [e]);
    assert [e][1..] == [];
  }

  lemma {:induction false} RunTracks(redis: set<string>, es: seq<Event>)
    ensures Tracks(Unfold(Start(redis), es), Told(redis, es))
  {
    if es != [] {
      var front, e := es[..|es| - 1], es[|es| - 1];
      assert es == front + [e];
      RunTracks(redis, front);
      HappensTracks(Unfold(Start(redis), front), Told(redis, front), e);
      UnfoldSnoc(Start(redis), front, e);
      ToldSnoc(redis, front, e);
    }
  }

  /** Replaying the audit log rebuilds the enabled flag of every domain, after every run. */
  lemma AuditRebuildsTable(redis: set<string>, es: seq<Event>)
    ensures var w := Unfold(Start(redis), es); Replay(w.db.audit) == EnabledMap(w.db.table)
  {
    RunTracks(redis, es);
  }

  // What the requests ask for

  /** The request succeeds and sets the domain's flag. */
  predicate Sets(w: World, e: Event, domain: string, flag: bool) {
    && e.Serves? && e.req.domain == domain
    && match e.req
       case Add(_, _, _) => flag && domain !in w.db.table
       case Update(_, newEnabled, _, _) => newEnabled == Some(flag) && domain in w.db.table
       case Remove(_, _, _) => false
  }

  /** The request succeeds and takes the domain away. */
  predicate TakesAway(w: World, e: Event, domain: string) {
    e.Serves? && e.req.domain == domain && e.req.Remove? && domain in w.db.table
  }

  predicate SetsAt(redis: set<string>, es: seq<Event>, i: nat, domain: string, flag: bool) {
    i < |es| && Sets(Before(redis, es, i), es[i], domain, flag)
  }

  predicate TakesAwayAt(redis: set<string>, es: seq<Event>, i: nat, domain: string) {
    i < |es| && TakesAway(Before(redis, es, i), es[i], domain)
  }

  predicate TouchesAt(redis: set<string>, es: seq<Event>, i: nat, domain: string) {
    SetsAt(redis, es, i, domain, true) || SetsAt(redis, es, i, domain, false) || TakesAwayAt(redis, es, i, domain)
  }

  ghost predicate UntouchedAfter(redis: set<string>, es: seq<Event>, i: nat, domain: string) {
    forall k: nat :: i < k ==> !TouchesAt(redis, es, k, domain)
  }

  /** The last successful request that touches the domain sets this flag. */
  ghost predicate LastSets(redis: set<string>, es: seq<Event>, domain: string, flag: bool) {
    exists i: nat :: SetsAt(redis, es, i, domain, flag) && UntouchedAfter(redis, es, i, domain)
  }

  predicate HasFlag(w: World, domain: string, flag: bool) {
    domain in w.db.table && w.db.table[domain].enabled == flag
  }

  predicate Touches(w: World, e: Event, domain: string) {
    Sets(w, e, domain, true) || Sets(w, e, domain, false) || TakesAway(w, e, domain)
  }

  lemma SameTouch(redis: set<string>, es: seq<Event>, e: Event, i: nat, domain: string, flag: bool)
    ensures i < |es| ==>
      && SetsAt(redis, es + [e], i, domain, flag) == SetsAt(redis, es, i, domain, flag)
      && TouchesAt(redis, es + [e], i, domain) == TouchesAt(redis, es, i, domain)
    ensures i == |es| ==>
      && SetsAt(redis, es + [e], i, domain, flag) == Sets(Unfold(Start(redis), es), e, domain, flag)
      && TouchesAt(redis, es + [e], i, domain) == Touches(Unfold(Start(redis), es), e, domain)
  {
    if i < |es| {
      assert (es + [e])[..i] == es[..i];
    } else if i == |es| {
      assert (es + [e])[..i] == es;
    }
  }

  lemma UntouchedSnoc(redis: set<string>, es: seq<Event>, e: Event, i: nat, domain: string)
    requires i < |es|
    ensures UntouchedAfter(redis, es + [e], i, domain) <==>
      UntouchedAfter(redis, es, i, domain) && !Touches(Unfold(Start(redis), es), e, domain)
  {
    forall k: nat {
      SameTouch(redis, es, e, k, domain, true);
    }
    if UntouchedAfter(redis, es + [e], i, domain) {
      assert !TouchesAt(redis, es + [e], |es|, domain);
      forall k: nat | i < k ensures !TouchesAt(redis, es, k, domain) {
        assert !TouchesAt(redis, es + [e], k, domain);
      }
    }
  }

  lemma LastSetsSnoc(redis: set<string>, es: seq<Event>, e: Event, domain: string, flag: bool)
    ensures var w := Unfold(Start(redis), es);
      LastSets(redis, es + [e], domain, flag) <==>
        Sets(w, e, domain, flag) || (LastSets(redis, es, domain, flag) && !Touches(w, e, domain))
  {
    var w := Unfold(Start(redis), es);
    if LastSets(redis, es + [e], domain, flag) {
      var i: nat :| SetsAt(redis, es + [e], i, domain, flag) && UntouchedAfter(redis, es + [e], i, domain);
      SameTouch(redis, es, e, i, domain, flag);
      if i < |es| {
        UntouchedSnoc(redis, es, e, i, domain);
      }
    }
    if LastSets(redis, es, domain, flag) && !Touches(w, e, domain) {
      var i: nat :| SetsAt(redis, es, i, domain, flag) && UntouchedAfter(redis, es, i, domain);
      SameTouch(redis, es, e, i, domain, flag);
      UntouchedSnoc(redis, es, e, i, domain);
    }
    if Sets(w, e, domain, flag) {
      SameTouch(redis, es, e, |es|, domain, flag);
      assert UntouchedAfter(redis, es + [e], |es|, domain);
    }
  }

  lemma FlagStep(w: World, e: Event, domain: string, flag: bool)
    ensures HasFlag(Happens(w, e), domain, flag) <==>
      Sets(w, e, domain, flag) || (HasFlag(w, domain, flag) && !Touches(w, e, domain))
  {
  }

  /** Requests do what they say, over every run: a domain is in the table with a flag if and only if the last
      successful request that touched it set that flag. */
  lemma {:induction false} FlagIsLastSet(redis: set<string>, es: seq<Event>, domain: string, flag: bool)
    ensures HasFlag(Unfold(Start(redis), es), domain, flag) <==> LastSets(redis, es, domain, flag)
  {
    if es != [] {
      var front, e := es[..|es| - 1], es[|es| - 1];
      assert es == front + [e];
      FlagIsLastSet(redis, front, domain, flag);
      UnfoldSnoc(Start(redis), front, e);
      FlagStep(Unfold(Start(redis), front), e, domain, flag);
      LastSetsSnoc(redis, front, e, domain, flag);
    }
  }

  predicate Quiet(w: World) {
    w.queue == [] && w.inbox == []
  }

  /** Once all commands are executed, Redis holds exactly the enabled rows, if the store has synchronised
      and no change has failed since. */
  lemma RedisConverges(redis: set<string>, es: seq<Event>)
    ensures var w := Unfold(Start(redis), es);
      w.queue == [] && Synchronised(redis, es) ==> w.redis == EnabledDomains(w.db.table)
  {
    RunTracks(redis, es);
  }

  /** No lost update: at rest, Redis has changed since the replica's last load if and only if a message was
      lost after a change and nothing was loaded since that change. If not, a replica that has ever loaded
      holds what Redis holds. */
  lemma ReplicaConverges(redis: set<string>, es: seq<Event>)
    requires Quiet(Unfold(Start(redis), es))
    ensures var w := Unfold(Start(redis), es);
      && (ChangedSinceLoad(redis, es) <==> Unheard(redis, es))
      && (HasLoaded(redis, es) && !Unheard(redis, es) ==> w.replica == w.redis)
      && (HasLoaded(redis, es) && !Unheard(redis, es) && Synchronised(redis, es) ==>
            w.replica == EnabledDomains(w.db.table))
  {
    RunTracks(redis, es);
  }

  /** No command and no load fails, and the subscription holds. */
  predicate Undisturbed(es: seq<Event>) {
    forall i :: 0 <= i < |es| ==> !es[i].Disconnects? && es[i] != Executes(false) && es[i] != Handles(false)
  }

  lemma {:induction false} HeardStays(redis: set<string>, es: seq<Event>, more: seq<Event>)
    requires Unfold(Start(redis), es).subscribed && HasLoaded(redis, es) && !Unheard(redis, es) && Undisturbed(more)
    ensures Unfold(Start(redis), es + more).subscribed
    ensures HasLoaded(redis, es + more) && !Unheard(redis, es + more)
    decreases |more|
  {
    if more == [] {
      assert es + more == es;
    } else {
      var front, e := more[..|more| - 1], more[|more| - 1];
      HeardStays(redis, es, front);
      assert es + more == es + front + [e];
      UnfoldSnoc(Start(redis), es + front, e);
      ToldSnoc(redis, es + front, e);
      assert !Loses(Unfold(Start(redis), es + front), e);
    }
  }

  /** A subscribed replica that has loaded and missed nothing is in step with Redis at every later moment of
      rest while it is undisturbed. */
  lemma SubscribedStaysInStep(redis: set<string>, es: seq<Event>, more: seq<Event>)
    requires Unfold(Start(redis), es).subscribed && HasLoaded(redis, es) && !Unheard(redis, es) && Undisturbed(more)
    ensures var t := Unfold(Start(redis), es + more);
      Quiet(t) ==> t.replica == t.redis && (Synchronised(redis, es + more) ==> t.replica == EnabledDomains(t.db.table))
  {
    HeardStays(redis, es, more);
    if Quiet(Unfold(Start(redis), es + more)) {
      ReplicaConverges(redis, es + more);
    }
  }

  /** One notification heals: whatever was lost before, the same holds of a subscribed replica from the next
      message it handles. */
  lemma NotificationHeals(redis: set<string>, es: seq<Event>, more: seq<Event>)
    requires Unfold(Start(redis), es).subscribed && Unfold(Start(redis), es).inbox != [] && Undisturbed(more)
    ensures var all := es + [Handles(true)] + more;
      var t := Unfold(Start(redis), all);
      Quiet(t) ==> t.replica == t.redis && (Synchronised(redis, all) ==> t.replica == EnabledDomains(t.db.table))
  {
    UnfoldSnoc(Start(redis), es, Handles(true));
    ToldSnoc(redis, es, Handles(true));
    SubscribedStaysInStep(redis, es + [Handles(true)], more);
  }

  lemma First(w: World, e: Event, es: seq<Event>)
    ensures Unfold(w, [e] + es) == Unfold(Happens(w, e), es)
  {
    assert ([e] + es)[1..] == es;
  }

  /** Executing the synchronisation of an empty table and reloading. */
  lemma FreshReplica() returns (w: World)
    ensures w == Unfold(Start({}), [Synchronises, Executes(true), Executes(true), Reloads(true)])
    ensures w == Start({})
  {
    var w1 := Happens(Start({}), Synchronises);
    assert w1.queue == [Del, Publish("sync")];
    var w2 := Happens(w1, Executes(true));
    assert w2.queue == [Publish("sync")];
    var w3 := Happens(w2, Executes(true));
    w := Happens(w3, Reloads(true));
    First(Start({}), Synchronises, [Executes(true), Executes(true), Reloads(true)]);
    First(w1, Executes(true), [Executes(true), Reloads(true)]);
    First(w2, Executes(true), [Reloads(true)]);
    First(w3, Reloads(true), []);
  }

  /** The replica reloads before it subscribes again, so a change between the two goes unnoticed: the
      domain is enabled, nothing failed, all is quiet, and the replica does not block it. */
  lemma ReloadBeforeSubscribeLosesUpdate() returns (es: seq<Event>)
    ensures var w := Unfold(Start({}), es);
      Undisturbed(es) && Quiet(w) && w.subscribed && w.redis == {"a.b"} == EnabledDomains(w.db.table) && w.replica == {}
  {
    var late := [Serves(Add("a.b", "", "")), Executes(true), Executes(true), Subscribes];
    var w := FreshReplica();
    var w1 := Happens(w, Serves(Add("a.b", "", "")));
    assert w1.queue == [SAdd({"a.b"}), Publish("add:" + "a.b")];
    var w2 := Happens(w1, Executes(true));
    assert w2.queue == [Publish("add:" + "a.b")];
    var w3 := Happens(w2, Executes(true));
    First(w, Serves(Add("a.b", "", "")), [Executes(true), Executes(true), Subscribes]);
    First(w1, Executes(true), [Executes(true), Subscribes]);
    First(w2, Executes(true), [Subscribes]);
    First(w3, Subscribes, []);
    es := [Synchronises, Executes(true), Executes(true), Reloads(true)] + late;
    UnfoldSplit(Start({}), [Synchronises, Executes(true), Executes(true), Reloads(true)], late);
  }

  // What the replica blocks

  /** Some member of the set blocks the host. */
  ghost predicate SetBlocks(members: set<string>, host: string) {
    exists d :: d in members && EntryBlocks(Normal(d), host)
  }

  lemma MembersBlock(ds: seq<string>, members: set<string>, host: string)
    requires forall d :: d in ds <==> d in members
    ensures NaiveBlocked(ds, host) <==> SetBlocks(members, host)
  {
    if SetBlocks(members, host) {
      var d :| d in members && EntryBlocks(Normal(d), host);
      assert d in ds;
    }
    if NaiveBlocked(ds, host) {
      var i :| 0 <= i < |ds| && EntryBlocks(Normal(ds[i]), host);
      assert ds[i] in ds;
    }
  }

  class Replica {
    var blocklist: Blocklist?

    constructor ()
      ensures blocklist == null
    {
      blocklist := null;
    }

    /** Swaps in a blocklist built from the members, which Redis lists in no particular order. */
    method Reload(members: set<string>)
      modifies this
      ensures blocklist != null && fresh(blocklist) && fresh(blocklist.repr) && blocklist.Valid()
      ensures forall host :: NaiveBlocked(blocklist.domains, host) <==> SetBlocks(members, host)
    {
      var todo, listed := members, [];
      while todo != {}
        invariant todo <= members
        invariant forall d :: d in listed <==> d in members && d !in todo
        decreases todo
      {
        var d :| d in todo;
        listed := listed + [d];
        todo := todo - {d};
      }
      var bl := new Blocklist(listed);
      blocklist := bl;
      forall host ensures NaiveBlocked(listed, host) <==> SetBlocks(members, host) {
        MembersBlock(listed, members, host);
      }
    }
  }

  /** End to end: at rest, with no change unheard or failed, a replica that loads what it last loaded blocks exactly the
      hosts that the naive rule over the enabled rows blocks. */
  method BlocksEnabledRows(redis: set<string>, ghost es: seq<Event>, members: set<string>, host: string)
    returns (blocked: bool)
    requires var w := Unfold(Start(redis), es); Quiet(w) && members == w.replica
    requires HasLoaded(redis, es) && !Unheard(redis, es) && Synchronised(redis, es)
    ensures var enabled := EnabledDomains(Unfold(Start(redis), es).db.table);
      && (forall h, port :: HasPort(Lower(host), h, port) ==> (blocked <==> SetBlocks(enabled, h)))
      && ((forall h, port :: !HasPort(Lower(host), h, port)) ==> (blocked <==> SetBlocks(enabled, Lower(host))))
  {
    ReplicaConverges(redis, es);
    var replica := new Replica();
    replica.Reload(members);
    blocked := Blocklist.IsBlocked(replica.blocklist, host);
  }
}
