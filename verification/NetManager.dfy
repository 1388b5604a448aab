/** Wi-Fi provisioning state, retry backoff and retry limit. Each handler is one atomic step; the
    driver, the timer service and the store are oracles. */
module NetManager {
  import opened EspErr
  import opened Folds
  import opened Options
  import opened Powers

  const BACKOFF_START := 1000
  const BACKOFF_MAX := 30000
  const MAX_ATTEMPTS := 8
  const SSID_SIZE := 32
  const PASSWORD_SIZE := 64

  datatype Prov = NotProvisioned | Connecting | Connected | Failed | WrongPassword

  datatype Reason = Unspecified | AuthFail | AuthExpire | HandshakeTimeout | NoApFound | Other(code: nat)

  datatype Posted = Posted(prov: Prov, reason: Reason)

  const START: Posted := Posted(NotProvisioned, Unspecified)

  /** The connection flags: the manager's own and the two of the published status. */
  datatype Link = Link(connected: bool, statusConnected: bool, gotIp: bool)

  const DOWN: Link := Link(false, false, false)
  const UP: Link := Link(true, true, true)

  /** The retry worker; armed is the delay of the pending timer. */
  datatype Retry = Retry(backoff: nat, count: nat, task: bool, timer: bool, armed: Option<nat>)

  const IDLE: Retry := Retry(BACKOFF_START, 0, false, false, None)

  /** The provisioning state with its reason, and every state event handed to the event loop so far. */
  datatype Notice = Notice(now: Posted, posted: seq<Posted>)

  datatype State = State(link: Link, creds: bool, started: bool, retry: Retry, watchdog: bool, provTask: bool,
                         notice: Notice)

  const BLANK: State := State(DOWN, false, false, IDLE, false, false, Notice(START, []))

  // ----- what the platform answers

  /** Creation of the retry task, creation of the timer, and start of the timer. */
  datatype Sched = Sched(task: bool, timer: bool, start: bool)

  /** Start of the station: done, already running, or refused. */
  datatype Wifi = WifiUp | WifiBusy | WifiDown

  /** Setting the station configuration: at once, or after a restart of the driver in station mode. */
  datatype Apply = Direct(ok: bool) | Restarted(mode: bool, start: bool, ok: bool)

  /** Everything a credentials call asks of the platform. */
  datatype Env = Env(stored: Err, apply: Apply, wifi: Wifi, sched: Sched, watchdog: bool)

  // ----- the parts

  function Update(n: Notice, prov: Prov, reason: Reason): Notice {
    var p := Posted(prov, reason);
    if n.now == p then n else Notice(p, n.posted + [p])
  }

  function EnsureTask(r: Retry, o: Sched): Retry {
    r.(task := r.task || o.task)
  }

  function EnsureTimer(r: Retry, o: Sched): Retry {
    r.(timer := r.timer || o.timer)
  }

  function StopTimer(r: Retry): Retry {
    if r.timer then r.(armed := None) else r
  }

  function Schedule(r: Retry, creds: bool, delay: nat, o: Sched): Retry {
    if !creds then r
    else
      var t := EnsureTask(r, o);
      if !t.task then t
      else
        var u := EnsureTimer(t, o);
        if !u.timer then u
        else if u.count >= MAX_ATTEMPTS then StopTimer(u)
        else StopTimer(u).(count := u.count + 1, armed := if o.start then Some(delay) else None)
  }

  function Reset(r: Retry): Retry {
    r.(backoff := BACKOFF_START, count := 0)
  }

  function NextBackoff(b: nat): nat {
    if b < BACKOFF_MAX then (if 2 * b > BACKOFF_MAX then BACKOFF_MAX else 2 * b) else b
  }

  predicate StationStarts(creds: bool, started: bool, w: Wifi) {
    creds && (started || w != WifiDown)
  }

  function StationNotice(creds: bool, started: bool, w: Wifi, n: Notice): Notice {
    if !creds then Update(n, NotProvisioned, Unspecified)
    else if started || w == WifiBusy then n
    else if w == WifiDown then Update(n, Failed, Unspecified)
    else Update(n, Connecting, Unspecified)
  }

  function StartStation(s: State, w: Wifi): State {
    s.(started := s.started || StationStarts(s.creds, s.started, w),
       notice := StationNotice(s.creds, s.started, w, s.notice))
  }

  predicate Applies(a: Apply) {
    a.ok && (a.Restarted? ==> a.mode && a.start)
  }

  predicate Restarts(a: Apply) {
    a.Restarted? && a.mode && a.start
  }

  predicate GoodArguments(ssid: string, password: string) {
    0 < |ssid| < SSID_SIZE && 0 < |password| < PASSWORD_SIZE
  }

  function DiscState(reason: Reason): Prov {
    if reason == AuthFail || reason == AuthExpire || reason == HandshakeTimeout then WrongPassword else Failed
  }

  /** The bring-up after a station start that worked: tasks first, then a retry unless the provisioning
      task will do it. */
  function BringUp(s: State, o: Sched, watchdog: bool, retry: bool): State {
    var t := EnsureTask(s.retry, o);
    s.(watchdog := s.watchdog || watchdog, retry := if retry then Schedule(t, s.creds, 10, o) else t)
  }

  // ----- the steps

  datatype Event =
    | StaStart(connects: bool, sched: Sched)
    | Disconnected(info: Option<Reason>, sched: Sched)
    | GotIp
    | SetCredentials(ssid: string, password: string, persist: bool, env: Env)
    | Forget
    | WatchdogTick(sched: Sched)
    | ProvisioningRun(wifi: Wifi, sched: Sched, watchdogOk: bool)
    | TimerFires

  /** A credentials call that gets as far as a configured station. */
  predicate Accepted(e: Event) {
    && e.SetCredentials?
    && GoodArguments(e.ssid, e.password)
    && (e.persist ==> e.env.stored == Ok)
    && Applies(e.env.apply)
  }

  function OnStaStart(auto: bool, s: State, connects: bool, o: Sched): State {
    if !s.creds || !auto then s
    else s.(notice := Update(s.notice, Connecting, Unspecified),
            retry := if connects then s.retry else Schedule(s.retry, s.creds, s.retry.backoff, o))
  }

  function OnDisconnected(auto: bool, s: State, info: Option<Reason>, o: Sched): State {
    var reason := if info.Some? then info.value else Unspecified;
    var next := NextBackoff(s.retry.backoff);
    s.(link := DOWN,
       notice := Update(s.notice, DiscState(reason), reason),
       retry := if auto then Schedule(s.retry.(backoff := next), s.creds, next, o) else s.retry)
  }

  function OnGotIp(s: State): State {
    s.(link := UP, retry := StopTimer(Reset(s.retry)), notice := Update(s.notice, Connected, Unspecified))
  }

  function OnAccepted(auto: bool, s: State, env: Env): State {
    var t := s.(creds := true, retry := Reset(s.retry), notice := Update(s.notice, Connecting, Unspecified));
    var u := StartStation(t, env.wifi);
    if StationStarts(true, s.started, env.wifi) && auto then BringUp(u, env.sched, env.watchdog, !s.provTask) else u
  }

  function OnCredentials(auto: bool, s: State, e: Event): State
    requires e.SetCredentials?
  {
    if !GoodArguments(e.ssid, e.password) || (e.persist && e.env.stored != Ok) then s
    else
      var t := s.(started := s.started || Restarts(e.env.apply));
      if Applies(e.env.apply) then OnAccepted(auto, t, e.env)
      else t.(notice := Update(t.notice, Failed, Unspecified))
  }

  function OnForget(s: State): State {
    s.(link := DOWN, creds := false, started := false, retry := StopTimer(s.retry).(backoff := BACKOFF_START),
       notice := Update(s.notice, NotProvisioned, Unspecified))
  }

  function OnWatchdog(s: State, o: Sched): State {
    if s.watchdog && s.creds && !s.link.connected then s.(retry := Schedule(s.retry, s.creds, 5, o)) else s
  }

  function OnProvisioning(auto: bool, s: State, w: Wifi, o: Sched, watchdog: bool): State {
    if !s.provTask || !s.creds then s
    else if StationStarts(true, s.started, w) && auto then BringUp(StartStation(s, w), o, watchdog, true)
    else StartStation(s, w)
  }

  function OnEvent(auto: bool, s: State, e: Event): State {
    match e
    case StaStart(connects, o) => OnStaStart(auto, s, connects, o)
    case Disconnected(info, o) => OnDisconnected(auto, s, info, o)
    case GotIp => OnGotIp(s)
    case SetCredentials(_, _, _, _) => OnCredentials(auto, s, e)
    case Forget => OnForget(s)
    case WatchdogTick(o) => OnWatchdog(s, o)
    case ProvisioningRun(w, o, watchdog) => OnProvisioning(auto, s, w, o, watchdog)
    case TimerFires => s.(retry := s.retry.(armed := None))
  }

  function Step(auto: bool): (State, Event) -> State {
    (s: State, e: Event) => OnEvent(auto, s, e)
  }

  /** The start-up call, once the driver and the event loop are there: loaded says whether credentials
      were found, and prov whether the provisioning task could be created. */
  function Boot(auto: bool, loaded: bool, apply: Apply, wifi: Wifi, o: Sched, watchdog: bool, prov: bool): State {
    if !loaded || !Applies(apply) then BLANK.(started := loaded && Restarts(apply), provTask := prov)
    else
      var s := StartStation(BLANK.(creds := true, started := Restarts(apply)), wifi);
      if StationStarts(true, Restarts(apply), wifi) && auto
      then s.(retry := EnsureTask(IDLE, o), watchdog := o.task && watchdog)
      else s
  }

  /** What accepted credentials leave behind: they are set, backoff and count start afresh, and if the
      station runs, autoconnect is on and the platform cooperates, a first retry is pending in 10 ms. */
  lemma AcceptedMeans(auto: bool, s: State, env: Env)
    ensures var t := OnAccepted(auto, s, env);
      && t.creds && t.retry.backoff == 1000 && t.retry.count <= 1 && t.provTask == s.provTask
      && (t.started && auto && !s.provTask && env.sched == Sched(true, true, true) ==>
            t.retry.armed == Some(10) && t.retry.count == 1)
  {
    hide Update;
  }

  class Manager {
    var link: Link
    var creds: bool
    var started: bool
    var retry: Retry
    var watchdog: bool
    var provTask: bool
    var notice: Notice
    const auto: bool

    function Model(): State
      reads this
    {
      State(link, creds, started, retry, watchdog, provTask, notice)
    }

    constructor (auto: bool, loaded: bool, apply: Apply, wifi: Wifi, o: Sched, watchdogOk: bool, prov: bool)
      ensures this.auto == auto && Model() == Boot(auto, loaded, apply, wifi, o, watchdogOk, prov)
      ensures creds <==> loaded && Applies(apply)
      ensures link == DOWN && retry.armed == None && retry.count == 0
      ensures watchdog || retry.task ==> creds && started && auto
      ensures provTask ==> !creds
      ensures !creds ==> notice == Notice(START, [])
      ensures creds && !started ==> notice == Notice(Posted(Prov.Failed, Unspecified), [Posted(Prov.Failed, Unspecified)])
      ensures creds && started && auto ==> retry.task == o.task && watchdog == (o.task && watchdogOk)
      ensures !creds ==> provTask == prov
    {
      this.auto := auto;
      link, creds, started, retry := DOWN, false, false, IDLE;
      watchdog, provTask, notice := false, false, Notice(START, []);
      new;
      if loaded {
        var applied := ApplyConfig(apply);
        creds := applied == Ok;
      }
      if creds {
        var err := StartStationIfProvisioned(wifi);
        if err == Ok && auto {
          var created := EnsureRetryTask(o);
          if created {
            watchdog := watchdogOk;
          }
        }
      } else {
        provTask := prov;
      }
    }

    method UpdateState(prov: Prov, reason: Reason)
      modifies this`notice
      ensures notice == Update(old(notice), prov, reason)
      ensures notice.now == Posted(prov, reason)
      ensures notice.posted
           == old(notice).posted + if old(notice).now == Posted(prov, reason) then [] else [Posted(prov, reason)]
    {
      if prov == notice.now.prov && reason == notice.now.reason {
        return;
      }
      notice := Notice(Posted(prov, reason), notice.posted + [Posted(prov, reason)]);
    }

    method ApplyConfig(apply: Apply) returns (err: Err)
      modifies this`started
      ensures started == (old(started) || Restarts(apply))
      ensures err == Ok <==> Applies(apply)
    {
      match apply {
        case Direct(ok) => err := if ok then Ok else Fail;
        case Restarted(mode, start, ok) =>
          if !mode || !start {
            return Fail;
          }
          started := true;
          err := if ok then Ok else Fail;
      }
    }

    method EnsureRetryTask(o: Sched) returns (ok: bool)
      modifies this`retry
      ensures retry == EnsureTask(old(retry), o) && ok == retry.task
    {
      if !retry.task {
        retry := retry.(task := o.task);
      }
      ok := retry.task;
    }

    method StopRetryTimer()
      modifies this`retry
      ensures retry == StopTimer(old(retry))
    {
      if retry.timer {
        retry := retry.(armed := None);
      }
    }

    method ScheduleRetry(delay: nat, o: Sched)
      modifies this`retry
      ensures retry == Schedule(old(retry), creds, delay, o)
      ensures !creds ==> retry == old(retry)
      ensures creds && o == Sched(true, true, true) && old(retry).count < 8 ==>
        retry.armed == Some(delay) && retry.count == old(retry).count + 1
      ensures creds && o == Sched(true, true, true) && old(retry).count >= 8 ==>
        retry.armed == None && retry.count == old(retry).count
      ensures retry.backoff == old(retry).backoff
    {
      if !creds {
        return;
      }
      var ok := EnsureRetryTask(o);
      if !ok {
        return;
      }
      if !retry.timer {
        retry := retry.(timer := o.timer);
      }
      if !retry.timer {
        return;
      }
      StopRetryTimer();
      if retry.count >= MAX_ATTEMPTS {
        return;
      }
      retry := retry.(count := retry.count + 1);
      if o.start {
        retry := retry.(armed := Some(delay));
      }
    }

    method StartStationIfProvisioned(w: Wifi) returns (err: Err)
      modifies this`started, this`notice
      ensures started == (old(started) || StationStarts(creds, old(started), w))
      ensures notice == StationNotice(creds, old(started), w, old(notice))
      ensures err == Ok <==> creds && started
      ensures err != Ok ==> !started || !creds
      ensures err != Ok ==> notice.now == Posted(if creds then Prov.Failed else NotProvisioned, Unspecified)
      ensures err == Ok && !old(started) && w == WifiUp ==> notice.now == Posted(Connecting, Unspecified)
      ensures err == Ok && (old(started) || w == WifiBusy) ==> notice == old(notice)
    {
      if !creds {
        UpdateState(NotProvisioned, Unspecified);
        return InvalidState;
      }
      if started {
        return Ok;
      }
      if w == WifiBusy {
        started := true;
        return Ok;
      }
      if w == WifiDown {
        UpdateState(Prov.Failed, Unspecified);
        return Fail;
      }
      started := true;
      UpdateState(Connecting, Unspecified);
      return Ok;
    }

    method HandleStaStart(connects: bool, o: Sched)
      modifies this
      ensures Model() == OnEvent(auto, old(Model()), StaStart(connects, o))
      ensures !creds || !auto ==> Model() == old(Model())
      ensures creds && auto ==> notice.now == Posted(Connecting, Unspecified)
      ensures connects ==> retry == old(retry)
      ensures creds && auto && !connects && o == Sched(true, true, true) && old(retry).count < MAX_ATTEMPTS ==>
        retry.armed == Some(old(retry).backoff) && retry.count == old(retry).count + 1
    {
      if !creds {
        return;
      }
      if !auto {
        return;
      }
      UpdateState(Connecting, Unspecified);
      if !connects {
        ScheduleRetry(retry.backoff, o);
      }
    }

    method HandleDisconnected(info: Option<Reason>, o: Sched)
      modifies this
      ensures Model() == OnEvent(auto, old(Model()), Disconnected(info, o))
      ensures link == Link(false, false, false)
      ensures notice.now == Posted(
        if info == Some(AuthFail) || info == Some(AuthExpire) || info == Some(HandshakeTimeout) then WrongPassword
        else Prov.Failed,
        if info.Some? then info.value else Unspecified)
      ensures auto && creds && o == Sched(true, true, true) && old(retry).count < 8 ==>
        retry.armed == Some(retry.backoff) && retry.count == old(retry).count + 1
      ensures creds == old(creds) && started == old(started)
    {
      link := DOWN;
      var reason := if info.Some? then info.value else Unspecified;
      UpdateState(DiscState(reason), reason);
      if auto {
        if retry.backoff < BACKOFF_MAX {
          var next := retry.backoff * 2;
          retry := retry.(backoff := if next > BACKOFF_MAX then BACKOFF_MAX else next);
        }
        ScheduleRetry(retry.backoff, o);
      }
    }

    method HandleGotIp()
      modifies this
      ensures Model() == OnEvent(auto, old(Model()), GotIp)
      ensures link == Link(true, true, true) && notice.now == Posted(Prov.Connected, Unspecified)
      ensures retry.backoff == 1000 && retry.count == 0 && (retry.timer ==> retry.armed == None)
      ensures creds == old(creds) && started == old(started)
    {
      link := UP;
      retry := retry.(backoff := BACKOFF_START, count := 0);
      StopRetryTimer();
      UpdateState(Prov.Connected, Unspecified);
    }

    method UseCredentials(env: Env)
      modifies this
      ensures Model() == OnAccepted(auto, old(Model()), env)
    {
      creds := true;
      UpdateState(Connecting, Unspecified);
      retry := retry.(backoff := BACKOFF_START, count := 0);
      var startErr := StartStationIfProvisioned(env.wifi);
      if startErr == Ok && auto {
        var _ := EnsureRetryTask(env.sched);
        watchdog := watchdog || env.watchdog;
        if !provTask {
          ScheduleRetry(10, env.sched);
        }
      }
    }

    method SetWifi(ssid: string, password: string, persist: bool, env: Env) returns (err: Err)
      modifies this
      ensures Model() == OnEvent(auto, old(Model()), SetCredentials(ssid, password, persist, env))
      ensures err == Ok <==> Accepted(SetCredentials(ssid, password, persist, env))
      ensures err == Ok <==>
        && 1 <= |ssid| <= 31 && 1 <= |password| <= 63 && (persist ==> env.stored == Ok)
        && (env.apply.Direct? ==> env.apply.ok)
        && (env.apply.Restarted? ==> env.apply.mode && env.apply.start && env.apply.ok)
      ensures err == Ok ==> creds && retry.backoff == 1000 && retry.count <= 1
      ensures err != Ok ==> creds == old(creds) && retry == old(retry)
      ensures err != Ok && 1 <= |ssid| <= 31 && 1 <= |password| <= 63 && (persist ==> env.stored == Ok) ==>
        notice.now == Posted(Prov.Failed, Unspecified)
      ensures !(1 <= |ssid| <= 31 && 1 <= |password| <= 63) ==> err == InvalidArg && Model() == old(Model())
      ensures err == Ok && started && auto && !provTask && env.sched == Sched(true, true, true) ==>
        retry.armed == Some(10) && retry.count == 1
    {
      if |ssid| == 0 || |password| == 0 {
        return InvalidArg;
      }
      if |ssid| >= SSID_SIZE || |password| >= PASSWORD_SIZE {
        return InvalidArg;
      }
      if persist {
        if env.stored != Ok {
          return env.stored;
        }
      }
      err := ApplyConfig(env.apply);
      if err == Ok {
        AcceptedMeans(auto, Model(), env);
        UseCredentials(env);
      }
      if err != Ok {
        UpdateState(Prov.Failed, Unspecified);
      }
    }

    method ForgetWifi()
      modifies this
      ensures Model() == OnEvent(auto, old(Model()), Forget)
      ensures !creds && !started && link == Link(false, false, false)
      ensures notice.now == Posted(NotProvisioned, Unspecified)
      ensures retry.backoff == 1000 && retry.count == old(retry).count && (retry.timer ==> retry.armed == None)
    {
      StopRetryTimer();
      retry := retry.(backoff := BACKOFF_START);
      if started {
        started := false;
      }
      link := DOWN;
      creds := false;
      UpdateState(NotProvisioned, Unspecified);
    }

    method RunWatchdog(o: Sched)
      modifies this
      ensures Model() == OnEvent(auto, old(Model()), WatchdogTick(o))
      ensures !watchdog || !creds || link.connected ==> Model() == old(Model())
      ensures watchdog && creds && !link.connected && o == Sched(true, true, true) && old(retry).count < 8 ==>
        retry.armed == Some(5) && retry.count == old(retry).count + 1
      ensures Model() == old(Model()).(retry := retry)
    {
      if watchdog && creds && !link.connected {
        ScheduleRetry(5, o);
      }
    }

    method RunProvisioning(w: Wifi, o: Sched, watchdogOk: bool)
      modifies this
      ensures Model() == OnEvent(auto, old(Model()), ProvisioningRun(w, o, watchdogOk))
    {
      if !provTask || !creds {
        return;
      }
      var err := StartStationIfProvisioned(w);
      if err != Ok {
        return;
      }
      if auto {
        var _ := EnsureRetryTask(o);
        watchdog := watchdog || watchdogOk;
        ScheduleRetry(10, o);
      }
    }
  }

  // ----- invariants over every run

  predicate RetrySound(r: Retry, creds: bool) {
    && (r.timer ==> r.task)
    && (r.armed.Some? ==> r.timer && creds && 0 < r.armed.value <= BACKOFF_MAX)
    && r.count <= MAX_ATTEMPTS
    && BACKOFF_START <= r.backoff <= BACKOFF_MAX
  }

  /** What a listener believes after the first i events. */
  function Told(posted: seq<Posted>, i: nat): Posted
    requires i <= |posted|
  {
    if i == 0 then START else posted[i - 1]
  }

  /** Every event posted so far told something new, and the last one told the current state. */
  predicate NoticeSound(n: Notice) {
    && Told(n.posted, |n.posted|) == n.now
    && forall i :: 0 <= i < |n.posted| ==> n.posted[i] != Told(n.posted, i)
  }

  predicate LinkSound(s: State) {
    && (s.link == UP || s.link == DOWN)
    && (s.notice.now.prov == Connected ==> s.link == UP)
  }

  predicate Sound(s: State) {
    RetrySound(s.retry, s.creds) && NoticeSound(s.notice) && LinkSound(s)
  }

  lemma ScheduleKeeps(r: Retry, creds: bool, delay: nat, o: Sched)
    requires RetrySound(r, creds) && 0 < delay <= BACKOFF_MAX
    ensures RetrySound(Schedule(r, creds, delay, o), creds)
  {
  }

  lemma UpdateKeeps(n: Notice, prov: Prov, reason: Reason)
    requires NoticeSound(n)
    ensures NoticeSound(Update(n, prov, reason))
    ensures Update(n, prov, reason).now == Posted(prov, reason)
  {
    var m := Update(n, prov, reason);
    assert forall i :: 0 <= i <= |n.posted| ==> Told(m.posted, i) == Told(n.posted, i);
  }

  lemma StationKeeps(s: State, w: Wifi)
    requires NoticeSound(s.notice) && LinkSound(s)
    ensures NoticeSound(StartStation(s, w).notice) && LinkSound(StartStation(s, w))
  {
    hide NoticeSound;
    UpdateKeeps(s.notice, NotProvisioned, Unspecified);
    UpdateKeeps(s.notice, Failed, Unspecified);
    UpdateKeeps(s.notice, Connecting, Unspecified);
    hide Update;
  }

  lemma BringUpKeeps(s: State, o: Sched, watchdog: bool, retry: bool)
    requires Sound(s)
    ensures Sound(BringUp(s, o, watchdog, retry))
  {
    ScheduleKeeps(EnsureTask(s.retry, o), s.creds, 10, o);
    hide NoticeSound;
  }

  lemma CredentialsKeep(auto: bool, s: State, e: Event)
    requires Sound(s) && e.SetCredentials?
    ensures Sound(OnCredentials(auto, s, e))
  {
    hide NoticeSound, Schedule;
    UpdateKeeps(s.notice, Failed, Unspecified);
    UpdateKeeps(s.notice, Connecting, Unspecified);
    var r := s.started || Restarts(e.env.apply);
    var t := s.(started := r, creds := true, retry := Reset(s.retry), notice := Update(s.notice, Connecting, Unspecified));
    StationKeeps(t, e.env.wifi);
    BringUpKeeps(StartStation(t, e.env.wifi), e.env.sched, e.env.watchdog, !s.provTask);
    hide Update, BringUp, StartStation;
  }

  lemma StepKeeps(auto: bool, s: State, e: Event)
    requires Sound(s)
    ensures Sound(OnEvent(auto, s, e))
  {
    hide NoticeSound;
    match e
    case StaStart(_, o) =>
      UpdateKeeps(s.notice, Connecting, Unspecified);
      ScheduleKeeps(s.retry, s.creds, s.retry.backoff, o);
    case Disconnected(info, o) =>
      var reason := if info.Some? then info.value else Unspecified;
      var next := NextBackoff(s.retry.backoff);
      UpdateKeeps(s.notice, DiscState(reason), reason);
      ScheduleKeeps(s.retry.(backoff := next), s.creds, next, o);
    case GotIp =>
      UpdateKeeps(s.notice, Connected, Unspecified);
    case SetCredentials(_, _, _, _) =>
      hide OnCredentials;
      CredentialsKeep(auto, s, e);
    case Forget =>
      UpdateKeeps(s.notice, NotProvisioned, Unspecified);
    case WatchdogTick(o) =>
      ScheduleKeeps(s.retry, s.creds, 5, o);
    case ProvisioningRun(w, o, watchdog) =>
      StationKeeps(s, w);
      BringUpKeeps(StartStation(s, w), o, watchdog, true);
    case TimerFires =>
  }

  /** What start-up was told: whether it found credentials, and how the platform answered. */
  datatype Start = Start(loaded: bool, apply: Apply, wifi: Wifi, sched: Sched, watchdog: bool, prov: bool)

  function Booted(auto: bool, b: Start): State {
    Boot(auto, b.loaded, b.apply, b.wifi, b.sched, b.watchdog, b.prov)
  }

  function Run(auto: bool, b: Start, es: seq<Event>): State {
    Fold(Step(auto), Booted(auto, b), es)
  }

  lemma RunSnoc(auto: bool, b: Start, es: seq<Event>)
    requires es != []
    ensures Run(auto, b, es) == OnEvent(auto, Run(auto, b, es[..|es| - 1]), es[|es| - 1])
  {
    assert es == es[..|es| - 1] + [es[|es| - 1]];
    Snoc(Step(auto), Booted(auto, b), es[..|es| - 1], es[|es| - 1]);
  }

  lemma BootSound(auto: bool, b: Start)
    ensures Sound(Booted(auto, b))
  {
    StationKeeps(BLANK.(creds := true, started := Restarts(b.apply)), b.wifi);
    hide StationNotice;
  }

  /** In every state reached by any history: a retry timer is armed only while credentials are set, at
      most eight retries are counted, a connected state means all three link flags are up, and the
      posted events are exactly the changes of state. */
  lemma {:induction false} AlwaysSound(auto: bool, b: Start, es: seq<Event>)
    ensures Sound(Run(auto, b, es))
    decreases |es|
  {
    hide Sound, OnEvent, Booted;
    if es == [] {
      BootSound(auto, b);
    } else {
      RunSnoc(auto, b, es);
      AlwaysSound(auto, b, es[..|es| - 1]);
      StepKeeps(auto, Run(auto, b, es[..|es| - 1]), es[|es| - 1]);
    }
  }

  // ----- closed forms over the history

  /** The link flags follow the last word on the link. */
  function LinkAfter(es: seq<Event>): Link {
    if es == [] then DOWN
    else match es[|es| - 1]
      case GotIp => UP
      case Disconnected(_, _) => DOWN
      case Forget => DOWN
      case _ => LinkAfter(es[..|es| - 1])
  }

  /** Disconnects since the last IP address, accepted credentials or forget. */
  function Drops(es: seq<Event>): nat {
    if es == [] then 0
    else
      var e := es[|es| - 1];
      if e.Disconnected? then Drops(es[..|es| - 1]) + 1
      else if e.GotIp? || e.Forget? || Accepted(e) then 0
      else Drops(es[..|es| - 1])
  }

  function Backoff(k: nat): nat {
    if 1000 * Pow2(k) < 30000 then 1000 * Pow2(k) else 30000
  }

  lemma BackoffNext(k: nat)
    ensures NextBackoff(Backoff(k)) == Backoff(k + 1)
    ensures Backoff(0) == BACKOFF_START
  {
    assert BACKOFF_START * Pow2(k + 1) == 2 * (BACKOFF_START * Pow2(k));
  }

  lemma BackoffStep(s: State, e: Event)
    ensures OnEvent(true, s, e).retry.backoff
         == if e.Disconnected? then NextBackoff(s.retry.backoff)
            else if e.GotIp? || e.Forget? || Accepted(e) then BACKOFF_START
            else s.retry.backoff
  {
    hide Update, NextBackoff, GoodArguments;
  }

  /** The backoff is 1000 ms doubled once for every disconnect since it was last reset, up to 30 s. */
  lemma {:induction false} BackoffClosedForm(b: Start, es: seq<Event>)
    ensures Run(true, b, es).retry.backoff == Backoff(Drops(es))
    decreases |es|
  {
    hide OnEvent, Backoff, NextBackoff, Accepted;
    if es == [] {
      BackoffNext(0);
    } else {
      RunSnoc(true, b, es);
      BackoffClosedForm(b, es[..|es| - 1]);
      BackoffStep(Run(true, b, es[..|es| - 1]), es[|es| - 1]);
      BackoffNext(Drops(es[..|es| - 1]));
    }
  }

  lemma LinkStep(auto: bool, s: State, e: Event)
    ensures OnEvent(auto, s, e).link
         == if e.GotIp? then UP else if e.Disconnected? || e.Forget? then DOWN else s.link
  {
    hide Schedule, Update, GoodArguments, Applies, StationNotice, EnsureTask;
  }

  lemma {:induction false} LinkClosedForm(auto: bool, b: Start, es: seq<Event>)
    ensures Run(auto, b, es).link == LinkAfter(es)
    decreases |es|
  {
    if es != [] {
      RunSnoc(auto, b, es);
      LinkClosedForm(auto, b, es[..|es| - 1]);
      LinkStep(auto, Run(auto, b, es[..|es| - 1]), es[|es| - 1]);
      hide OnEvent, Run;
    }
  }

  // ----- the retry limit

  /** The call of the retry scheduler an event makes, if any: what the platform answers it. */
  function Calls(auto: bool, s: State, e: Event): Option<Sched> {
    match e
    case StaStart(connects, o) => if s.creds && auto && !connects then Some(o) else None
    case Disconnected(_, o) => if s.creds && auto then Some(o) else None
    case GotIp => None
    case SetCredentials(_, _, _, env) =>
      if Accepted(e) && auto && !s.provTask && StationStarts(true, s.started || Restarts(env.apply), env.wifi)
      then Some(env.sched) else None
    case Forget => None
    case WatchdogTick(o) => if s.watchdog && s.creds && !s.link.connected then Some(o) else None
    case ProvisioningRun(w, o, _) =>
      if s.provTask && auto && s.creds && StationStarts(true, s.started, w) then Some(o) else None
    case TimerFires => None
  }

  /** The event asks for a retry, with the worker task and the timer in place. */
  predicate Tries(auto: bool, s: State, e: Event) {
    var o := Calls(auto, s, e);
    o.Some? && (s.retry.task || o.value.task) && (s.retry.timer || o.value.timer)
  }

  predicate Clears(e: Event) {
    e.GotIp? || Accepted(e)
  }

  /** Retries asked for since the last IP address or accepted credentials. */
  function Attempts(auto: bool, b: Start, es: seq<Event>): nat {
    if es == [] then 0
    else
      var p, e := es[..|es| - 1], es[|es| - 1];
      (if Clears(e) then 0 else Attempts(auto, b, p)) + if Tries(auto, Run(auto, b, p), e) then 1 else 0
  }

  function Capped(n: nat): nat {
    if n < MAX_ATTEMPTS then n else MAX_ATTEMPTS
  }

  lemma CountStep(auto: bool, s: State, e: Event)
    ensures OnEvent(auto, s, e).retry.count
         == if Tries(auto, s, e) && (Clears(e) || s.retry.count < MAX_ATTEMPTS)
            then (if Clears(e) then 0 else s.retry.count) + 1
            else (if Clears(e) then 0 else s.retry.count)
  {
    hide Update, NextBackoff, GoodArguments;
  }

  /** The retry counter is the number of retries asked for since it was cleared, capped at eight;
      forgetting the credentials clears nothing. */
  lemma {:induction false} CountClosedForm(auto: bool, b: Start, es: seq<Event>)
    ensures Run(auto, b, es).retry.count == Capped(Attempts(auto, b, es))
    decreases |es|
  {
    hide OnEvent, Tries, Clears;
    if es != [] {
      RunSnoc(auto, b, es);
      CountClosedForm(auto, b, es[..|es| - 1]);
      CountStep(auto, Run(auto, b, es[..|es| - 1]), es[|es| - 1]);
    }
  }

  /** The event starts a retry timer: it leaves one armed even if none was armed before. */
  predicate Arms(auto: bool, s: State, e: Event) {
    OnEvent(auto, s.(retry := s.retry.(armed := None)), e).retry.armed.Some?
  }

  /** Retry timers started since the last IP address or accepted credentials. */
  function Starts(auto: bool, b: Start, es: seq<Event>): nat {
    if es == [] then 0
    else
      var p, e := es[..|es| - 1], es[|es| - 1];
      (if Clears(e) then 0 else Starts(auto, b, p)) + if Arms(auto, Run(auto, b, p), e) then 1 else 0
  }

  lemma ScheduleArms(r: Retry, creds: bool, delay: nat, o: Sched)
    ensures Schedule(r.(armed := None), creds, delay, o).armed.Some? <==>
      creds && (r.task || o.task) && (r.timer || o.timer) && r.count < MAX_ATTEMPTS && o.start
    ensures Schedule(r.(armed := None), creds, delay, o).armed.Some? ==>
      var t := Schedule(r, creds, delay, o);
      t.armed == Some(delay) && t.task && t.timer && t.backoff == r.backoff
  {
  }

  lemma CredentialsArm(auto: bool, s: State, e: Event)
    requires e.SetCredentials? && Arms(auto, s, e)
    ensures Tries(auto, s, e) && Clears(e)
    ensures var t := OnEvent(auto, s, e);
      t.creds && t.retry.task && t.retry.timer && t.started && t.retry.armed == Some(10)
  {
    var r, o := s.retry, e.env.sched;
    ScheduleArms(EnsureTask(Reset(r), o), true, 10, o);
    assert EnsureTask(Reset(r.(armed := None)), o) == EnsureTask(Reset(r), o).(armed := None);
    hide Schedule, Update, GoodArguments, StationNotice, EnsureTask;
  }

  /** A timer is started only with credentials, a worker and a timer in place, and an attempt left; by the
      bring-up only once the station runs. Its delay is 5 ms from the watchdog, 10 ms from the bring-up
      and the backoff otherwise. */
  lemma ArmsMeans(auto: bool, s: State, e: Event)
    requires Arms(auto, s, e)
    ensures Tries(auto, s, e) && (Clears(e) || s.retry.count < MAX_ATTEMPTS)
    ensures var t := OnEvent(auto, s, e);
      && t.creds && t.retry.task && t.retry.timer
      && (e.SetCredentials? || e.ProvisioningRun? ==> t.started)
      && t.retry.armed == Some(if e.WatchdogTick? then 5
                               else if e.SetCredentials? || e.ProvisioningRun? then 10
                               else t.retry.backoff)
  {
    var r := s.retry;
    match e
    case StaStart(_, o) =>
      ScheduleArms(r, s.creds, r.backoff, o);
    case Disconnected(_, o) =>
      var next := NextBackoff(r.backoff);
      ScheduleArms(r.(backoff := next), s.creds, next, o);
      hide Schedule, Update;
    case GotIp =>
    case SetCredentials(_, _, _, _) =>
      CredentialsArm(auto, s, e);
      hide OnEvent, Tries, Clears;
    case Forget =>
    case WatchdogTick(o) =>
      ScheduleArms(r, s.creds, 5, o);
    case ProvisioningRun(_, o, _) =>
      ScheduleArms(EnsureTask(r, o), s.creds, 10, o);
      hide Schedule, Update, StationNotice;
    case TimerFires =>
  }

  /** The provisioning task does nothing without credentials; otherwise it leaves the retry worker alone
      unless the station runs afterwards, and then, with autoconnect on and a platform that cooperates,
      a retry is pending in 10 ms while attempts are left. */
  lemma ProvisioningMeans(auto: bool, s: State, w: Wifi, o: Sched, watchdog: bool)
    ensures var t := OnEvent(auto, s, ProvisioningRun(w, o, watchdog));
      && (!s.creds || !s.provTask ==> t == s)
      && (t.retry != s.retry ==> auto && s.creds && s.provTask && t.started)
      && (auto && s.creds && s.provTask && t.started && o == Sched(true, true, true) && s.retry.count < MAX_ATTEMPTS ==>
            t.retry.armed == Some(10) && t.retry.count == s.retry.count + 1)
  {
    hide Update;
  }

  /** At most eight retry timers are started between two clearings, in every history. */
  lemma {:induction false} StartsBounded(auto: bool, b: Start, es: seq<Event>)
    ensures Starts(auto, b, es) <= Run(auto, b, es).retry.count <= MAX_ATTEMPTS
    decreases |es|
  {
    CountClosedForm(auto, b, es);
    hide OnEvent, Tries, Clears, Run, Arms;
    if es != [] {
      var p, e := es[..|es| - 1], es[|es| - 1];
      RunSnoc(auto, b, es);
      StartsBounded(auto, b, p);
      CountStep(auto, Run(auto, b, p), e);
      if Arms(auto, Run(auto, b, p), e) {
        ArmsMeans(auto, Run(auto, b, p), e);
      }
    } else {
      assert Starts(auto, b, es) == 0;
    }
  }

  /** Once eight retries are counted, the next request for one cancels the retry still pending. */
  lemma LimitCancelsPending(auto: bool, b: Start, es: seq<Event>, e: Event)
    requires Attempts(auto, b, es) >= MAX_ATTEMPTS && !Clears(e)
    requires Tries(auto, Run(auto, b, es), e)
    ensures Run(auto, b, es + [e]).retry.armed == None
  {
    CountClosedForm(auto, b, es);
    AlwaysSound(auto, b, es);
    assert (es + [e])[..|es|] == es;
    RunSnoc(auto, b, es + [e]);
    hide Run, NoticeSound, Update, NextBackoff, GoodArguments;
  }

  lemma ScheduleSpent(r: Retry, creds: bool, delay: nat, o: Sched)
    requires r.count == MAX_ATTEMPTS && r.armed == None
    ensures Schedule(r, creds, delay, o).count == MAX_ATTEMPTS && Schedule(r, creds, delay, o).armed == None
  {
  }

  lemma SpentStep(auto: bool, s: State, e: Event)
    requires s.retry.count == MAX_ATTEMPTS && s.retry.armed == None && !Clears(e)
    ensures OnEvent(auto, s, e).retry.count == MAX_ATTEMPTS && OnEvent(auto, s, e).retry.armed == None
  {
    forall r: Retry, creds, delay, o | r.count == MAX_ATTEMPTS && r.armed == None
      ensures Schedule(r, creds, delay, o).count == MAX_ATTEMPTS && Schedule(r, creds, delay, o).armed == None
    {
      ScheduleSpent(r, creds, delay, o);
    }
    hide Schedule, Update, NextBackoff, GoodArguments, Applies, OnAccepted, StationNotice;
  }

  /** From then on nothing but an IP address or new credentials arms a retry again: no number of
      disconnects, station starts, watchdog ticks or forgets does. */
  lemma {:induction false} SpentStaysSpent(auto: bool, s: State, es: seq<Event>)
    requires s.retry.count == MAX_ATTEMPTS && s.retry.armed == None
    requires forall i :: 0 <= i < |es| ==> !Clears(es[i])
    ensures Fold(Step(auto), s, es).retry.count == MAX_ATTEMPTS && Fold(Step(auto), s, es).retry.armed == None
    decreases |es|
  {
    hide OnEvent, Clears;
    if es != [] {
      SpentStep(auto, s, es[0]);
      SpentStaysSpent(auto, OnEvent(auto, s, es[0]), es[1..]);
    }
  }

  /** A pending retry does not wait out the backoff: a watchdog tick while the link is down replaces it
      by one after 5 ms, whatever the backoff has grown to. */
  lemma WatchdogCutsWait(b: Start, es: seq<Event>, o: Sched)
    requires o.start && Tries(true, Run(true, b, es), WatchdogTick(o))
    requires Attempts(true, b, es) < MAX_ATTEMPTS
    ensures Run(true, b, es + [WatchdogTick(o)]).retry.armed == Some(5)
    ensures Run(true, b, es + [WatchdogTick(o)]).retry.backoff == Backoff(Drops(es))
  {
    CountClosedForm(true, b, es);
    BackoffClosedForm(b, es);
    assert (es + [WatchdogTick(o)])[..|es|] == es;
    RunSnoc(true, b, es + [WatchdogTick(o)]);
    hide Run, Backoff;
  }
}
