/**
 Every interleaving of configuration writes with detached reconciles: nothing is
 left mounted out of date without a reconcile queued or a failure noted, but for two
 kinds of write, and then only until the name is next queued or reconciled.
 */
module Convergence {
  import opened Wrappers
  import opened Maps
  import opened PluginSettings
  import opened Instances
  import opened Lifecycle
  import opened Reconcile
  import opened Dependence

  /** A running host: what it stores, the certificates it trusts, what it serves and the reconciles queued. */
  datatype Machine = Machine(disk: Disk, trust: string, served: Served, queue: multiset<string>)

  datatype Event =
    | SettingsSaved(values: map<PluginKey, Option<string>>, records: map<string, Option<Record>>)
    | RowsSaved(name: string, field: string, rows: seq<Row>)
    | RowsWiped(name: string)
    | OverrideSaved(name: string, override: Option<Override>, reloaded: bool)
    | ServerChanged(name: string, server: Option<Server>)
    | TrustChanged(pool: string)
    | Reconciled(name: string, works: bool)

  /** The keys the settings watcher takes for a plugin's. */
  predicate Watched(k: PluginKey) {
    NameOk(k.instance) && FieldOk(k.field)
  }

  /** A batch laid over a map: each key put, deleted or untouched. */
  function Written<K, V>(m: map<K, V>, batch: map<K, Option<V>>): map<K, V> {
    map k | k in m.Keys + batch.Keys && (k in batch ==> batch[k].Some?) :: if k in batch then batch[k].value else m[k]
  }

  /** The names a settings batch queues. */
  function Touched(values: map<PluginKey, Option<string>>, records: map<string, Option<Record>>): set<string> {
    (set k | k in values && Watched(k) :: k.instance) + records.Keys
  }

  function Listed(dep: Deployment, d: Disk): set<string> {
    set n | n in dep.dirs.Keys + dep.file.Keys + d.records.Keys + d.servers.Keys && InstanceOf(dep, d, n).Some?
  }

  /** The disk after a write. */
  function DiskAfter(d: Disk, e: Event): Disk {
    match e
    case SettingsSaved(values, records) =>
      d.(stored := Written(d.stored, values), records := Written(d.records, records))
    case RowsSaved(name, field, rows) => d.(rows := d.rows[PluginKey(name, field) := rows])
    case RowsWiped(name) => Unrowed(d, name)
    case OverrideSaved(name, override, reloaded) =>
      var table := Written(d.table, map[name := override]);
      if reloaded then d.(table := table, cache := table) else d.(table := table)
    case ServerChanged(name, server) => d.(servers := Written(d.servers, map[name := server]))
    case TrustChanged(_) => d
    case Reconciled(_, _) => d
  }

  function TrustAfter(trust: string, e: Event): string {
    if e.TrustChanged? then e.pool else trust
  }

  /** The reconciles a write queues. */
  function Queued(dep: Deployment, d: Disk, e: Event): set<string> {
    match e
    case SettingsSaved(values, records) => Touched(values, records)
    case RowsSaved(name, _, _) => {name}
    case RowsWiped(_) => {}
    case OverrideSaved(name, _, reloaded) => if reloaded then {name} else {}
    case ServerChanged(name, _) => {name}
    case TrustChanged(_) => Listed(dep, d)
    case Reconciled(_, _) => {}
  }

  /** The names whose configuration a write may move without queueing them. */
  function Unannounced(d: Disk, e: Event): set<string> {
    match e
    case RowsWiped(name) => {name}
    case OverrideSaved(name, _, true) =>
      (set n | n in d.table.Keys + d.cache.Keys && Get(d.table, n) != Get(d.cache, n)) - {name}
    case _ => {}
  }

  predicate Moves(dep: Deployment, m: Machine, e: Event, name: string) {
    Wanted(dep, DiskAfter(m.disk, e), TrustAfter(m.trust, e), name) != Wanted(dep, m.disk, m.trust, name)
  }

  function Step(dep: Deployment, m: Machine, e: Event): Machine {
    if e.Reconciled? then
      m.(served := Brought(dep, m.disk, m.trust, m.served, e.name, e.works), queue := m.queue - multiset{e.name})
    else
      Machine(DiskAfter(m.disk, e), TrustAfter(m.trust, e), m.served, m.queue + multiset(Queued(dep, m.disk, e)))
  }

  function After(dep: Deployment, m: Machine, events: seq<Event>): Machine {
    if events == [] then m else Step(dep, After(dep, m, events[..|events| - 1]), events[|events| - 1])
  }

  /** The names a settings write queues: those of the keys the watcher knows, and of the records. */
  lemma TouchedExactly(values: map<PluginKey, Option<string>>, records: map<string, Option<Record>>, name: string)
    ensures name in Touched(values, records)
            <==> name in records
                 || (NameOk(name) && exists field :: PluginKey(name, field) in values && FieldOk(field))
  {
    if field :| PluginKey(name, field) in values && FieldOk(field) && NameOk(name) {
      assert Watched(PluginKey(name, field));
    }
    if k :| k in values && Watched(k) && k.instance == name { assert PluginKey(name, k.field) in values; }
  }

  /** The names a change of certificates queues: those that are instances. */
  lemma ListedExactly(dep: Deployment, d: Disk, name: string)
    ensures name in Listed(dep, d) <==> InstanceOf(dep, d, name).Some?
  {
  }

  /** What the writes leave, key by key, that no operation of the lifecycle makes. */
  lemma WritesExactly(d: Disk, e: Event, k: PluginKey, name: string)
    ensures e.RowsSaved? ==>
              && Get(DiskAfter(d, e).rows, k)
                 == (if k == PluginKey(e.name, e.field) then Some(e.rows) else Get(d.rows, k))
              && DiskAfter(d, e) == d.(rows := DiskAfter(d, e).rows)
    ensures e.ServerChanged? ==>
              && Get(DiskAfter(d, e).servers, name) == (if name == e.name then e.server else Get(d.servers, name))
              && DiskAfter(d, e) == d.(servers := DiskAfter(d, e).servers)
    ensures e.SettingsSaved? ==>
              && Get(DiskAfter(d, e).stored, k) == (if k in e.values then e.values[k] else Get(d.stored, k))
              && Get(DiskAfter(d, e).records, name)
                 == (if name in e.records then e.records[name] else Get(d.records, name))
              && DiskAfter(d, e) == d.(stored := DiskAfter(d, e).stored, records := DiskAfter(d, e).records)
    ensures e.TrustChanged? ==> DiskAfter(d, e) == d && forall trust :: TrustAfter(trust, e) == e.pool
    ensures !e.TrustChanged? ==> forall trust :: TrustAfter(trust, e) == trust
  {
  }

  lemma AfterOne(dep: Deployment, m: Machine, events: seq<Event>, e: Event)
    ensures After(dep, m, events + [e]) == Step(dep, After(dep, m, events), e)
  {
    assert (events + [e])[..|events|] == events;
  }

  lemma AfterNext(dep: Deployment, m: Machine, events: seq<Event>, n: nat)
    requires n < |events|
    ensures After(dep, m, events[..n + 1]) == Step(dep, After(dep, m, events[..n]), events[n])
  {
    assert events[..n + 1][..n] == events[..n];
  }

  /** Mounted exactly as the current configuration asks. */
  predicate InSync(dep: Deployment, m: Machine, name: string) {
    Get(m.served.mounted, name) == Wanted(dep, m.disk, m.trust, name)
  }

  /** In line, or about to be brought in line, or noted as failing. */
  predicate Settled(dep: Deployment, m: Machine, name: string) {
    InSync(dep, m, name) || m.queue[name] > 0 || name in m.served.problems
  }

  predicate EventOk(e: Event) {
    e.ServerChanged? && e.server.Some? ==> ServerOk(e.name, e.server.value)
  }

  // ---- What a write can move ----------------------------------------------

  lemma WrittenAt<K, V>(m: map<K, V>, batch: map<K, Option<V>>, k: K)
    ensures Get(Written(m, batch), k) == if k in batch then batch[k] else Get(m, k)
  {
  }

  lemma ServersStayOk(d: Disk, e: Event)
    requires ServersOk(d) && EventOk(e)
    ensures ServersOk(DiskAfter(d, e))
  {
    if e.ServerChanged? {
      forall n | n in DiskAfter(d, e).servers ensures ServerOk(n, DiskAfter(d, e).servers[n]) {
        WrittenAt(d.servers, map[e.name := e.server], n);
      }
    }
  }

  lemma SettingsKeep(dep: Deployment, d: Disk, e: Event, trust: string, name: string)
    requires WellNamed(dep) && ServersOk(d) && e.SettingsSaved? && name !in Touched(e.values, e.records)
    ensures Wanted(dep, DiskAfter(d, e), trust, name) == Wanted(dep, d, trust, name)
  {
    var d' := DiskAfter(d, e);
    if NameOk(name) {
      WrittenAt(d.records, e.records, name);
      assert SameDeclaration(d, d', name);
      forall k: PluginKey | k.instance == name && FieldOk(k.field) ensures Get(d.stored, k) == Get(d'.stored, k) {
        assert Watched(k) && k !in e.values;
        WrittenAt(d.stored, e.values, k);
      }
      WantedFrame(dep, d, d', trust, name);
    } else {
      ImproperIsUnknown(dep, d, name);
      ImproperIsUnknown(dep, d', name);
    }
  }

  lemma RowsKeep(dep: Deployment, d: Disk, e: Event, trust: string, name: string)
    requires WellNamed(dep) && ServersOk(d) && (e.RowsSaved? || e.RowsWiped?) && name != e.name
    ensures Wanted(dep, DiskAfter(d, e), trust, name) == Wanted(dep, d, trust, name)
  {
    var d' := DiskAfter(d, e);
    assert forall k: PluginKey | k.instance == name :: Get(d.rows, k) == Get(d'.rows, k);
    WantedFrame(dep, d, d', trust, name);
  }

  lemma OverridesKeep(dep: Deployment, d: Disk, e: Event, trust: string, name: string)
    requires WellNamed(dep) && ServersOk(d) && e.OverrideSaved?
    requires e.reloaded ==> name != e.name && Get(d.table, name) == Get(d.cache, name)
    ensures Wanted(dep, DiskAfter(d, e), trust, name) == Wanted(dep, d, trust, name)
  {
    var d' := DiskAfter(d, e);
    WrittenAt(d.table, map[e.name := e.override], name);
    assert Get(d'.cache, name) == Get(d.cache, name);
    WantedFrame(dep, d, d', trust, name);
  }

  lemma ServersKeep(dep: Deployment, d: Disk, e: Event, trust: string, name: string)
    requires WellNamed(dep) && ServersOk(d) && e.ServerChanged? && name != e.name
    ensures Wanted(dep, DiskAfter(d, e), trust, name) == Wanted(dep, d, trust, name)
  {
    var d' := DiskAfter(d, e);
    WrittenAt(d.servers, map[e.name := e.server], name);
    assert Get(d'.servers, name) == Get(d.servers, name);
    WantedFrame(dep, d, d', trust, name);
  }

  /** A write moves only the names it queues, but for the ones it may move unannounced. */
  lemma OnlyTheQueuedMove(dep: Deployment, m: Machine, e: Event, name: string)
    requires WellNamed(dep) && ServersOk(m.disk) && !e.Reconciled?
    requires name !in Queued(dep, m.disk, e) && name !in Unannounced(m.disk, e)
    ensures !Moves(dep, m, e, name)
  {
    match e
    case SettingsSaved(_, _) => SettingsKeep(dep, m.disk, e, m.trust, name);
    case RowsSaved(_, _, _) => RowsKeep(dep, m.disk, e, m.trust, name);
    case RowsWiped(_) => RowsKeep(dep, m.disk, e, m.trust, name);
    case OverrideSaved(_, _, _) => OverridesKeep(dep, m.disk, e, m.trust, name);
    case ServerChanged(_, _) => ServersKeep(dep, m.disk, e, m.trust, name);
    case TrustChanged(_) => assert InstanceOf(dep, m.disk, name).None?;
  }

  /**
   The writes that leave a name behind, seen before they are made: a removal's wipe of
   rows the plugin is using, and a reload for another name while this one's override
   has been switched and not read back.
   */
  predicate LeavesBehind(dep: Deployment, d: Disk, e: Event, name: string) {
    || (e.RowsWiped? && name == e.name && UsesRows(dep, d, name))
    || (e.OverrideSaved? && e.reloaded && name != e.name && SwitchedUnread(dep, d, name))
  }

  /** A write that does not queue a name moves it exactly when it leaves it behind. */
  lemma MovesExactly(dep: Deployment, m: Machine, e: Event, name: string)
    requires WellNamed(dep) && ServersOk(m.disk) && !e.Reconciled? && name !in Queued(dep, m.disk, e)
    ensures Moves(dep, m, e, name) <==> LeavesBehind(dep, m.disk, e, name)
  {
    if e.RowsWiped? && name == e.name {
      WipeMovesExactly(dep, m.disk, m.trust, name);
    } else if e.OverrideSaved? && e.reloaded {
      WrittenAt(m.disk.table, map[e.name := e.override], name);
      ReloadMovesExactly(dep, m.disk, DiskAfter(m.disk, e), m.trust, name);
    } else {
      OnlyTheQueuedMove(dep, m, e, name);
    }
  }

  /** A name in line stays in line or is queued exactly when the write does not leave it behind. */
  lemma GapExactly(dep: Deployment, m: Machine, e: Event, name: string)
    requires WellNamed(dep) && ServersOk(m.disk) && !e.Reconciled?
    requires InSync(dep, m, name) && m.queue[name] == 0
    ensures InSync(dep, Step(dep, m, e), name) || Step(dep, m, e).queue[name] > 0
            <==> !LeavesBehind(dep, m.disk, e, name)
  {
    if name in Queued(dep, m.disk, e) {
      QueuedIsNotLeft(dep, m, e, name);
    } else {
      MovesExactly(dep, m, e, name);
      UnqueuedInSync(dep, m, e, name);
    }
  }

  /** A write that queues a name does not leave it behind. */
  lemma QueuedIsNotLeft(dep: Deployment, m: Machine, e: Event, name: string)
    requires !e.Reconciled? && name in Queued(dep, m.disk, e)
    ensures Step(dep, m, e).queue[name] > 0 && !LeavesBehind(dep, m.disk, e, name)
  {
  }

  /** A name in line that a write does not queue is in line afterwards exactly when the write does not move it. */
  lemma UnqueuedInSync(dep: Deployment, m: Machine, e: Event, name: string)
    requires !e.Reconciled? && name !in Queued(dep, m.disk, e) && InSync(dep, m, name) && m.queue[name] == 0
    ensures InSync(dep, Step(dep, m, e), name) <==> !Moves(dep, m, e, name)
    ensures Step(dep, m, e).queue[name] == 0
  {
  }

  // ---- Every run ----------------------------------------------------------

  /** The write queues a reconcile of the name, or is one. */
  predicate PicksUp(dep: Deployment, d: Disk, e: Event, name: string) {
    name in Queued(dep, d, e) || (e.Reconciled? && e.name == name)
  }

  predicate LeftAt(dep: Deployment, m: Machine, events: seq<Event>, name: string, i: nat)
    requires i < |events|
  {
    LeavesBehind(dep, After(dep, m, events[..i]).disk, events[i], name)
  }

  predicate PickedUpAt(dep: Deployment, m: Machine, events: seq<Event>, name: string, j: nat)
    requires j < |events|
  {
    PicksUp(dep, After(dep, m, events[..j]).disk, events[j], name)
  }

  /** Some event leaves the name behind and none after it picks it up. */
  predicate Forsaken(dep: Deployment, m: Machine, events: seq<Event>, name: string) {
    exists i | 0 <= i < |events| ::
      LeftAt(dep, m, events, name, i) && forall j | i < j < |events| :: !PickedUpAt(dep, m, events, name, j)
  }

  lemma PickUpSettles(dep: Deployment, m: Machine, e: Event, name: string)
    requires PicksUp(dep, m.disk, e, name)
    ensures Settled(dep, Step(dep, m, e), name)
  {
  }

  lemma StepKeepsSettled(dep: Deployment, m: Machine, e: Event, name: string)
    requires WellNamed(dep) && ServersOk(m.disk) && Settled(dep, m, name)
    requires !LeavesBehind(dep, m.disk, e, name)
    ensures Settled(dep, Step(dep, m, e), name)
  {
    if PicksUp(dep, m.disk, e, name) {
      PickUpSettles(dep, m, e, name);
    } else if !e.Reconciled? {
      MovesExactly(dep, m, e, name);
    }
  }

  predicate EventsOk(events: seq<Event>) {
    forall e | e in events :: EventOk(e)
  }

  lemma {:induction false} ServersRunOk(dep: Deployment, m: Machine, events: seq<Event>, n: nat)
    requires ServersOk(m.disk) && EventsOk(events) && n <= |events|
    ensures ServersOk(After(dep, m, events[..n]).disk)
  {
    if n == 0 {
    } else {
      ServersRunOk(dep, m, events, n - 1);
      assert events[n - 1] in events;
      ServersNextOk(dep, m, events, n - 1);
    }
  }

  lemma ServersNextOk(dep: Deployment, m: Machine, events: seq<Event>, n: nat)
    requires n < |events| && EventOk(events[n]) && ServersOk(After(dep, m, events[..n]).disk)
    ensures ServersOk(After(dep, m, events[..n + 1]).disk)
  {
    AfterNext(dep, m, events, n);
    ServersStayOk(After(dep, m, events[..n]).disk, events[n]);
  }

  /** What is settled stays so until it is left behind, and is settled again once picked up. */
  predicate Recovers(settled: nat -> bool, left: nat -> bool, picked: nat -> bool, k: nat) {
    picked(k) || (settled(k) && !left(k)) ==> settled(k + 1)
  }

  lemma {:induction false} SettledOrForsaken(settled: nat -> bool, left: nat -> bool, picked: nat -> bool, n: nat)
    requires settled(0) && forall k: nat | k < n :: Recovers(settled, left, picked, k)
    ensures settled(n) || exists i: nat :: i < n && left(i) && forall j: nat | i < j < n :: !picked(j)
  {
    if n == 0 {
    } else {
      SettledOrForsaken(settled, left, picked, n - 1);
      assert Recovers(settled, left, picked, n - 1);
      if !settled(n) {
        if !settled(n - 1) {
          var i: nat :| i < n - 1 && left(i) && forall j: nat | i < j < n - 1 :: !picked(j);
          assert i < n && left(i) && forall j: nat | i < j < n :: !picked(j);
        } else {
          assert left(n - 1);
        }
      }
    }
  }

  lemma NextSettles(dep: Deployment, m: Machine, events: seq<Event>, name: string, n: nat)
    requires WellNamed(dep) && ServersOk(m.disk) && EventsOk(events) && n < |events|
    requires PickedUpAt(dep, m, events, name, n)
             || (Settled(dep, After(dep, m, events[..n]), name) && !LeftAt(dep, m, events, name, n))
    ensures Settled(dep, After(dep, m, events[..n + 1]), name)
  {
    var before, e := After(dep, m, events[..n]), events[n];
    AfterNext(dep, m, events, n);
    ServersRunOk(dep, m, events, n);
    if PicksUp(dep, before.disk, e, name) {
      PickUpSettles(dep, before, e, name);
    } else {
      StepKeepsSettled(dep, before, e, name);
    }
  }

  /** Whether the name is settled, left behind and picked up, event by event. */
  ghost function SettledRun(dep: Deployment, m: Machine, events: seq<Event>, name: string): nat -> bool {
    (n: nat) => n <= |events| && Settled(dep, After(dep, m, events[..n]), name)
  }

  ghost function LeftRun(dep: Deployment, m: Machine, events: seq<Event>, name: string): nat -> bool {
    (n: nat) => n < |events| && LeftAt(dep, m, events, name, n)
  }

  ghost function PickedRun(dep: Deployment, m: Machine, events: seq<Event>, name: string): nat -> bool {
    (n: nat) => n < |events| && PickedUpAt(dep, m, events, name, n)
  }

  lemma RunRecovers(dep: Deployment, m: Machine, events: seq<Event>, name: string, k: nat)
    requires WellNamed(dep) && ServersOk(m.disk) && EventsOk(events) && k < |events|
    ensures Recovers(SettledRun(dep, m, events, name), LeftRun(dep, m, events, name),
                     PickedRun(dep, m, events, name), k)
  {
    if PickedUpAt(dep, m, events, name, k)
       || (Settled(dep, After(dep, m, events[..k]), name) && !LeftAt(dep, m, events, name, k))
    {
      NextSettles(dep, m, events, name, k);
    }
  }

  lemma ForsakenAt(dep: Deployment, m: Machine, events: seq<Event>, name: string, i: nat)
    requires i < |events| && LeftRun(dep, m, events, name)(i)
    requires forall j: nat | i < j < |events| :: !PickedRun(dep, m, events, name)(j)
    ensures Forsaken(dep, m, events, name)
  {
    forall j | i < j < |events| ensures !PickedUpAt(dep, m, events, name, j) {
      assert !PickedRun(dep, m, events, name)(j);
    }
    assert LeftAt(dep, m, events, name, i);
  }

  /** Over every run, a name is settled or was left behind and not picked up since. */
  lemma EveryRunSettles(dep: Deployment, m: Machine, events: seq<Event>, name: string)
    requires WellNamed(dep) && ServersOk(m.disk) && EventsOk(events) && Settled(dep, m, name)
    ensures Settled(dep, After(dep, m, events), name) || Forsaken(dep, m, events, name)
  {
    var settled, left := SettledRun(dep, m, events, name), LeftRun(dep, m, events, name);
    var picked, n := PickedRun(dep, m, events, name), |events|;
    assert events[..0] == [] && events[..n] == events;
    forall k: nat | k < n ensures Recovers(settled, left, picked, k) { RunRecovers(dep, m, events, name, k); }
    SettledOrForsaken(settled, left, picked, n);
    if !settled(n) {
      var i: nat :| i < n && left(i) && forall j: nat | i < j < n :: !picked(j);
      ForsakenAt(dep, m, events, name, i);
    }
  }

  /** Whenever the run leaves the name behind, it queues or reconciles it later. */
  predicate AlwaysPickedUp(dep: Deployment, m: Machine, events: seq<Event>, name: string) {
    forall i | 0 <= i < |events| && LeftAt(dep, m, events, name, i) ::
      exists j | i < j < |events| :: PickedUpAt(dep, m, events, name, j)
  }

  /**
   From what startup leaves, whatever is written and reconciled in whatever order, as
   long as a name left behind is picked up later: it is mounted as its current
   configuration asks, has a reconcile queued, or has its last failure noted.
   */
  lemma HostStaysSettled(dep: Deployment, d: Disk, trust: string, s: Served, events: seq<Event>, name: string)
    requires WellNamed(dep) && ServersOk(d) && UpToDate(dep, d, trust, s, name) && EventsOk(events)
    requires AlwaysPickedUp(dep, Machine(d, trust, s, multiset{}), events, name)
    ensures var m := After(dep, Machine(d, trust, s, multiset{}), events);
            InSync(dep, m, name) || m.queue[name] > 0 || name in m.served.problems
  {
    var m := Machine(d, trust, s, multiset{});
    EveryRunSettles(dep, m, events, name);
  }

  /** The reconciles of a list of names, each of which works. */
  function Reconciles(names: seq<string>): seq<Event> {
    if names == [] then [] else Reconciles(names[..|names| - 1]) + [Reconciled(names[|names| - 1], true)]
  }

  predicate InLine(dep: Deployment, m: Machine, name: string) {
    InSync(dep, m, name) && name !in m.served.problems
  }

  /** A reconcile that works brings its name in line, whatever was there, and disturbs no other. */
  lemma ReconcileBringsInLine(dep: Deployment, m: Machine, name: string, other: string)
    ensures var m' := Step(dep, m, Reconciled(name, true));
            && InLine(dep, m', name)
            && (other != name ==>
                  && (InLine(dep, m', other) <==> InLine(dep, m, other))
                  && (InSync(dep, m', other) <==> InSync(dep, m, other)))
            && m'.disk == m.disk && m'.trust == m.trust
  {
  }

  /** Reconciling every name left out of line brings all of them in line, in whatever order it is done. */
  lemma DrainingConverges(dep: Deployment, m: Machine, names: seq<string>, name: string)
    requires name in names || InSync(dep, m, name)
    ensures InSync(dep, After(dep, m, Reconciles(names)), name)
    ensures name in names ==> name !in After(dep, m, Reconciles(names)).served.problems
  {
    if name in names {
      ReconciledInLine(dep, m, names, name);
    } else {
      OthersUndisturbed(dep, m, names, name);
    }
  }

  lemma {:induction false} ReconciledInLine(dep: Deployment, m: Machine, names: seq<string>, name: string)
    requires name in names
    ensures InLine(dep, After(dep, m, Reconciles(names)), name)
  {
    var n := |names| - 1;
    LastReconcile(dep, m, names, name);
    if name != names[n] {
      InTheRest(names, name);
      ReconciledInLine(dep, m, names[..n], name);
    }
  }

  lemma InTheRest(names: seq<string>, name: string)
    requires name in names && name != names[|names| - 1]
    ensures name in names[..|names| - 1]
  {
    assert names == names[..|names| - 1] + [names[|names| - 1]];
  }

  lemma {:induction false} OthersUndisturbed(dep: Deployment, m: Machine, names: seq<string>, name: string)
    requires name !in names && InSync(dep, m, name)
    ensures InSync(dep, After(dep, m, Reconciles(names)), name)
  {
    if names == [] {
    } else {
      var n := |names| - 1;
      assert names[n] in names;
      OthersUndisturbed(dep, m, names[..n], name);
      LastReconcile(dep, m, names, name);
    }
  }

  lemma LastReconcile(dep: Deployment, m: Machine, names: seq<string>, name: string)
    requires names != []
    ensures var n := |names| - 1;
            var before, after := After(dep, m, Reconciles(names[..n])), After(dep, m, Reconciles(names));
            && InLine(dep, after, names[n])
            && (name != names[n] ==>
                  && (InLine(dep, after, name) <==> InLine(dep, before, name))
                  && (InSync(dep, after, name) <==> InSync(dep, before, name)))
  {
    var n := |names| - 1;
    var rest := Reconciles(names[..n]);
    AfterOne(dep, m, rest, Reconciled(names[n], true));
    ReconcileBringsInLine(dep, After(dep, m, rest), names[n], name);
  }

  // ---- Failing reconciles -------------------------------------------------

  /** The reconciles of a list of names, none of which works. */
  function Failures(names: seq<string>): seq<Event> {
    if names == [] then [] else Failures(names[..|names| - 1]) + [Reconciled(names[|names| - 1], false)]
  }

  lemma FailureStep(dep: Deployment, m: Machine, name: string, other: string)
    ensures var m' := Step(dep, m, Reconciled(name, false));
            && m'.disk == m.disk && m'.trust == m.trust
            && (name == other && Wanted(dep, m.disk, m.trust, other).None? ==>
                  other !in m'.served.mounted && other !in m'.served.problems)
            && (name != other || Wanted(dep, m.disk, m.trust, other).Some? ==>
                  Get(m'.served.mounted, other) == Get(m.served.mounted, other))
            && (name == other && Wanted(dep, m.disk, m.trust, other).Some? ==> other in m'.served.problems)
            && (name != other ==> (other in m'.served.problems <==> other in m.served.problems))
  {
  }

  /** What failing reconciles leave of one name. */
  predicate Endured(dep: Deployment, m: Machine, m': Machine, tried: bool, name: string) {
    var wanted := Wanted(dep, m.disk, m.trust, name).Some?;
    && m'.disk == m.disk && m'.trust == m.trust
    && Get(m'.served.mounted, name) == (if tried && !wanted then None else Get(m.served.mounted, name))
    && (name in m'.served.problems <==> if tried then wanted else name in m.served.problems)
  }

  /**
   However many builds fail, for however many plugins: each goes on serving what it
   served, and is noted; only what is no longer wanted stops.
   */
  lemma {:induction false} FailuresKeepServing(dep: Deployment, m: Machine, names: seq<string>, name: string)
    ensures Endured(dep, m, After(dep, m, Failures(names)), name in names, name)
  {
    if names == [] {
    } else {
      var n := |names| - 1;
      var rest := Failures(names[..n]);
      FailuresKeepServing(dep, m, names[..n], name);
      AfterOne(dep, m, rest, Reconciled(names[n], false));
      FailureStep(dep, After(dep, m, rest), names[n], name);
      if name != names[n] && name in names { InTheRest(names, name); }
    }
  }
}
