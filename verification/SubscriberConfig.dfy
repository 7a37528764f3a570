/** The subscriber configuration and the helper that delivers its messages, with the fields they update in
    place. Every method is proved to do to `View()` what the step relation of module Provisioning does. */
module Subscriber {
  import opened Lists
  import opened P = Provisioning

  datatype Action = Action(config: SubscriberConfig, message: Message)

  /** The messages queued for one configuration, oldest first. */
  ghost function QueueOf(actions: seq<Action>, c: SubscriberConfig): seq<Message> {
    if actions == [] then []
    else (if actions[0].config == c then [actions[0].message] else []) + QueueOf(actions[1..], c)
  }

  lemma {:induction false} QueueOfAppend(actions: seq<Action>, x: Action, c: SubscriberConfig)
    ensures QueueOf(actions + [x], c) == QueueOf(actions, c) + if x.config == c then [x.message] else []
  {
    if actions != [] {
      QueueOfAppend(actions[1..], x, c);
      assert (actions + [x])[1..] == actions[1..] + [x];
    } else {
      assert (actions + [x])[1..] == [];
    }
  }

  lemma {:induction false} QueueOfStranger(actions: seq<Action>, c: SubscriberConfig)
    requires forall x | x in actions :: x.config != c
    ensures QueueOf(actions, c) == []
  {
    if actions != [] {
      QueueOfStranger(actions[1..], c);
    }
  }

  class AsyncConfigHelper {
    var configs: seq<SubscriberConfig>
    var actions: seq<Action>

    ghost predicate Valid()
      reads this
    {
      forall i, j | 0 <= i < j < |configs| :: configs[i] != configs[j]
    }

    constructor ()
      ensures Valid() && configs == [] && actions == []
    {
      configs := [];
      actions := [];
    }

    method IsRegisteredConfig(c: SubscriberConfig) returns (found: bool)
      ensures found <==> c in configs
    {
      for i := 0 to |configs|
        invariant c !in configs[..i]
      {
        if configs[i] == c {
          return true;
        }
      }
      return false;
    }

    method Register(c: SubscriberConfig)
      requires Valid()
      modifies this`configs
      ensures Valid()
      ensures configs == if c in old(configs) then old(configs) else old(configs) + [c]
    {
      var found := IsRegisteredConfig(c);
      if !found {
        configs := configs + [c];
      }
    }

    method Unregister(c: SubscriberConfig)
      requires Valid()
      modifies this`configs
      ensures Valid() && c !in configs
      ensures configs == Without(old(configs), c)
    {
      for i := 0 to |configs|
        invariant configs == old(configs)
        invariant c !in configs[..i]
      {
        if configs[i] == c {
          WithoutAt(configs, c, i);
          configs := configs[..i] + configs[i + 1..];
          return;
        }
      }
      WithoutNone(configs, c);
    }

    /** Posts the message, unless the configuration is not registered. */
    method SendTo(c: SubscriberConfig, m: Message) returns (sent: bool)
      modifies this`actions
      ensures sent <==> c in configs
      ensures actions == if sent then old(actions) + [Action(c, m)] else old(actions)
    {
      sent := IsRegisteredConfig(c);
      if sent {
        actions := actions + [Action(c, m)];
      }
    }

    /** Takes the oldest action; it is handled by its configuration, or dropped when that is gone. */
    method OnMessage(a: Answers)
      requires Valid() && actions != []
      requires var c := actions[0].config; c in configs ==> c.Valid() && c.helper == this
      modifies this`actions, if actions[0].config in configs then {actions[0].config} else {}
      ensures Valid() && configs == old(configs)
      ensures var c := old(actions[0].config);
              if c in configs then c.Valid() && c.View() == old(Step(c.View(), Deliver, a))
              else actions == old(actions[1..])
      ensures forall d | d in configs && d != old(actions[0].config) ::
                QueueOf(actions, d) == old(QueueOf(actions, d))
      ensures forall d | d in configs && d != old(actions[0].config) && d.helper == this ::
                d.View() == old(d.View())
    {
      var action := actions[0];
      actions := actions[1..];
      label taken:
      var found := IsRegisteredConfig(action.config);
      if found {
        assert action.config.View() ==
               old(action.config.View().(queue := action.config.View().queue[1..]));
        action.config.HandleMessage(action.message, a);
      }
    }
  }

  class SubscriberConfig {
    const helper: AsyncConfigHelper
    var mode: Mode
    var allowed: bool
    var isim: bool
    var attached: bool
    var error: Option<IsimError>
    var pending: bool
    var configured: set<Record>
    var records: set<Record>
    var istPcscf: bool
    var initRetry: int
    var rounds: int
    var startRetry: int
    var timers: set<Timer>
    var listeners: seq<nat>
    ghost var log: seq<Effect>

    /** Construction, with the registration that the start message makes. */
    constructor (configured: set<Record>, h: AsyncConfigHelper)
      requires h.Valid()
      modifies h`configs
      ensures Valid() && helper == h && h.configs == old(h.configs) + [this]
      ensures View() == Constructed(configured)
    {
      helper := h;
      mode := Init;
      allowed := true;
      isim := true;
      attached := false;
      error := None;
      pending := false;
      this.configured := configured;
      records := {};
      istPcscf := false;
      initRetry := 0;
      rounds := 0;
      startRetry := 0;
      timers := {};
      listeners := [];
      log := [];
      new;
      h.Register(this);
      QueueOfStranger(h.actions, this);
    }

    ghost predicate Valid()
      reads this, helper
    {
      InRange(Retry(initRetry, rounds, startRetry)) && helper.Valid() && this in helper.configs
    }

    ghost function View(): State
      reads this, helper
    {
      State(mode, allowed, isim, attached, error, Reading(pending, configured, records, istPcscf),
            Retry(initRetry, rounds, startRetry), timers, listeners, QueueOf(helper.actions, this), log)
    }

    /** What a method may do to the helper: append actions of its own. */
    twostate predicate OnlyMine()
      reads this, helper
    {
      helper.configs == old(helper.configs)
      && forall d | d in helper.configs && d != this :: QueueOf(helper.actions, d) == old(QueueOf(helper.actions, d))
    }

    method SendMessage(m: Message)
      requires Valid()
      modifies helper`actions
      ensures Valid() && OnlyMine()
      ensures View() == old(Post(View(), m))
    {
      var sent := helper.SendTo(this, m);
      forall d | d in helper.configs
        ensures QueueOf(helper.actions, d) == old(QueueOf(helper.actions, d)) + if d == this then [m] else [] {
        QueueOfAppend(old(helper.actions), Action(this, m), d);
      }
    }

    ghost method Note(e: Effect)
      requires Valid()
      modifies this`log
      ensures Valid() && View() == old(Log(View(), e))
    {
      log := log + [e];
    }

    method SetState(to: Mode, ghost via: Site)
      requires Valid()
      modifies this`mode, this`log
      ensures Valid() && View() == old(Move(View(), to, via))
    {
      log := log + [Entered(mode, to, via, configured <= records)];
      mode := to;
    }

    ghost method Notify(e: Effect)
      requires Valid()
      modifies this`log
      ensures Valid() && View() == old(Tell(View(), e))
    {
      if listeners != [] {
        log := log + [e];
      }
    }

    method InitProvisioning(a: Answers)
      requires Valid()
      modifies this, helper`actions
      ensures Valid() && OnlyMine()
      ensures View() == old(P.InitProvisioning(View(), a))
    {
      if !allowed {
        initRetry := 0;
        return;
      }
      if isim {
        error := None;
        attached := a.found;
        if !a.found {
          return;
        }
        if !a.initOk {
          if initRetry >= 0 {
            var interval := if initRetry > 5 then 60 else INIT_INTERVAL[initRetry];
            initRetry := initRetry + 1;
            SendMessage(InitRetryTimerMsg(interval));
          }
        }
      }
    }

    method RecoverIsimProvisioning(e: IsimError)
      requires Valid()
      modifies this`mode, this`log
      ensures Valid() && View() == old(P.Recover(View(), e))
    {
      if e == StartFailed || e == ReadFailed(Impi) || e == ReadFailed(Impu) || e == ReadFailed(Domain) {
        if error == Some(StartFailed) || error == Some(ReadFailed(Impi)) || error == Some(ReadFailed(Impu))
           || error == Some(ReadFailed(Domain)) {
          return;
        }
        if mode == Refreshing {
          SetState(Provisioned, AtRecovery);
        }
      }
    }

    method OnReadRefused(what: Record)
      requires Valid()
      modifies this, helper`actions
      ensures Valid() && OnlyMine()
      ensures View() == old(Post(P.Recover(View(), ReadFailed(what)).(error := Some(ReadFailed(what))),
                                 NotifyErrorMsg(None, false)))
    {
      if what == Impi || what == Impu || what == Domain {
        RecoverIsimProvisioning(ReadFailed(what));
      }
      KeepError(ReadFailed(what), false);
    }

    /** Asks the ISIM for one record and acts on its immediate answer. */
    method ReadOne(what: Record, answer: ReadAnswer)
      requires Valid()
      modifies this, helper`actions
      ensures Valid() && OnlyMine()
      ensures View() == old(P.ReadOne(View(), what, answer))
    {
      Note(Requested(what, records, configured));
      match answer
      case ReadRefused => OnReadRefused(what);
      case NoRecords =>
        records := records + {what};
        SendMessage(ReadRecordMsg(false));
      case Accepted =>
        pending := true;
    }

    method ReadIsimProvisioning(a: Answers)
      requires Valid()
      modifies this, helper`actions
      ensures Valid() && OnlyMine()
      ensures View() == old(P.ReadIsim(View(), a))
    {
      if pending {
        return;
      }
      if !attached {
        log := log + [ReadWithoutIsim];
        return;
      }
      if a.state != IsimReady {
        return;
      }
      if Impi !in records {
        ReadOne(Impi, a.read);
        return;
      }
      if Impu !in records {
        ReadOne(Impu, a.read);
        return;
      }
      if Domain !in records {
        ReadOne(Domain, a.read);
        return;
      }
      if Ist in configured && Ist !in records {
        ReadOne(Ist, a.read);
        return;
      }
      if Pcscf in configured && Pcscf !in records {
        if Ist in configured {
          if !istPcscf {
            records := records + {Pcscf};
            SendMessage(ReadRecordMsg(false));
            return;
          }
        }
        ReadOne(Pcscf, a.read);
      }
    }

    method Plan(seconds: int, m: Message)
      requires Valid()
      modifies this`log, helper`actions
      ensures Valid() && OnlyMine()
      ensures View() == old(Post(Log(View(), StartRetryPlanned(seconds)), m))
    {
      Note(StartRetryPlanned(seconds));
      SendMessage(m);
    }

    /** What follows a failed Start: another Start later, or after six of them a new initialization. */
    method PlanStartRetry()
      requires Valid()
      modifies this, helper`actions
      ensures Valid() && OnlyMine()
      ensures View() == old(P.PlanStartRetry(View()))
    {
      var interval := if startRetry < 5 then START_INTERVAL[startRetry] else 10;
      startRetry := startRetry + 1;
      if startRetry > 5 {
        rounds := rounds + 1;
        initRetry := 1;
        if rounds > 6 {
          interval := 60;
        } else {
          interval := interval * rounds;
        }
        startRetry := 0;
        Plan(interval, InitRetryTimerMsg(interval));
      } else {
        Plan(interval, StartRetryTimerMsg(interval));
      }
    }

    method StartProvisioning(a: Answers)
      requires Valid()
      modifies this, helper`actions
      ensures Valid() && OnlyMine()
      ensures View() == old(P.StartProvisioning(View(), a))
    {
      pending := false;
      if !allowed {
        return;
      }
      if isim {
        if !attached {
          return;
        }
        if !a.startOk {
          if a.state == IsimInit || a.state == IsimRefreshed {
            PlanStartRetry();
          }
          return;
        }
        rounds := 0;
        if !a.ready {
          return;
        }
        if !(configured <= records) {
          ReadIsimProvisioning(a);
        }
      }
    }

    method ForgetRecords(enforce: bool)
      requires Valid()
      modifies this
      ensures Valid()
      ensures View() ==
              old(var s := View();
                  var s1 := if enforce then s.(reading := Reading(false, MANDATORY, {}, false), error := None) else s;
                  s1.(reading := Reset(s1.reading)))
    {
      if enforce {
        pending := false;
        configured := MANDATORY;
        records := {};
        istPcscf := false;
        error := None;
      }
      records := records - configured;
    }

    method RefreshIsimProvisioning(enforce: bool, a: Answers)
      requires Valid()
      modifies this, helper`actions
      ensures Valid() && OnlyMine()
      ensures View() == old(P.RefreshIsim(View(), enforce, a))
    {
      if isim {
        if !attached {
          InitProvisioning(a);
        } else if a.readyBefore && (configured <= records || enforce) {
          ForgetRecords(enforce);
          ReadIsimProvisioning(a);
        } else if a.stateBefore == IsimInit {
          StartProvisioning(a);
        }
      }
    }

    method ReadFrom(a: Answers)
      requires Valid()
      modifies this
      ensures Valid() && View() == old(P.ReadFrom(View(), a))
    {
      error := None;
      allowed := true;
      isim := a.isimConfigured;
      if isim {
        if mode == Refreshing {
        } else {
          SetState(InProvisioning, AtReadFrom);
        }
        return;
      }
      SetState(Provisioned, AtReadFrom);
    }

    method UpdateAllConfigs(enforce: bool, a: Answers)
      requires Valid()
      modifies this, helper`actions
      ensures Valid() && OnlyMine()
      ensures View() == old(P.UpdateAllConfigs(View(), enforce, a))
    {
      ReadFrom(a);
      if isim {
        SendMessage(RefreshIsimMsg(enforce));
      }
    }

    method OnReadRecord(answered: bool, a: Answers)
      requires Valid()
      modifies this, helper`actions
      ensures Valid() && OnlyMine()
      ensures View() == old(P.OnReadRecord(View(), answered, a))
    {
      if isim {
        if !(configured <= records) {
          if answered && pending {
            pending := false;
          }
          ReadIsimProvisioning(a);
        } else {
          if mode == Provisioned {
            return;
          }
          var previous := mode;
          SetState(Provisioned, AtReadRecord);
          if listeners == [] {
            return;
          }
          if previous == InProvisioning {
            Notify(ToldInitCompleted);
          } else {
            Notify(ToldRefreshCompleted);
          }
        }
      }
    }

    method OnUpdateAll(a: Answers)
      requires Valid()
      modifies this, helper`actions
      ensures Valid() && OnlyMine()
      ensures View() == old(P.OnUpdateAll(View(), a))
    {
      SetState(Refreshing, AtUpdateAll);
      Notify(ToldRefreshStarted);
      UpdateAllConfigs(false, a);
      if !isim {
        SendMessage(RefreshCompletedMsg);
      }
    }

    method ArmTimer(t: Timer, seconds: int, a: Answers)
      requires Valid()
      modifies this
      ensures Valid() && View() == old(P.Arm(View(), t, seconds, a))
    {
      timers := timers - {t};
      if a.timerCreated {
        timers := timers + {t};
        log := log + [Armed(t, seconds)];
      }
      assert old(timers) + {t} == old(timers) - {t} + {t};
    }

    ghost method NotifyError(target: Option<nat>)
      requires Valid()
      modifies this`log
      ensures Valid() && View() == old(P.OnNotifyError(View(), target))
    {
      if target == None {
        Notify(ToldError(None));
      } else if target.value in listeners {
        log := log + [ToldError(target)];
      }
    }

    method OnRecovery(seconds: int, a: Answers)
      requires Valid()
      modifies this, helper`actions
      ensures Valid() && OnlyMine()
      ensures View() == old(P.OnRecovery(View(), seconds, a))
    {
      if seconds == 0 {
        initRetry := 0;
        startRetry := 0;
        InitProvisioning(a);
      } else {
        initRetry := 1;
        SendMessage(InitRetryTimerMsg(seconds));
      }
    }

    method HandleMessage(m: Message, a: Answers)
      requires Valid()
      modifies this, helper`actions
      ensures Valid() && OnlyMine()
      ensures View() == old(P.HandleMessage(View(), m, a))
    {
      match m
      case StartProvisioningMsg(_) => StartProvisioning(a);
      case ReadRecordMsg(answered) => OnReadRecord(answered, a);
      case InitCompletedMsg => Notify(ToldInitCompleted);
      case RefreshCompletedMsg => Notify(ToldRefreshCompleted);
      case RefreshStartedMsg => Notify(ToldRefreshStarted);
      case NotifyErrorMsg(target, _) => NotifyError(target);
      case UpdateAllMsg => OnUpdateAll(a);
      case InitRetryTimerMsg(seconds) => ArmTimer(InitTimer, seconds, a);
      case StartRetryTimerMsg(seconds) => ArmTimer(StartTimer, seconds, a);
      case RecoveryMsg(seconds) => OnRecovery(seconds, a);
      case RefreshIsimMsg(enforce) => RefreshIsimProvisioning(enforce, a);
    }

    // -------------------------------------------------------------- events from outside

    method RecordRead(what: Record)
      requires Valid()
      modifies this, helper`actions
      ensures Valid() && OnlyMine()
      ensures View() == old(P.RecordRead(View(), what))
    {
      pending := false;
      records := records + {what};
      SendMessage(ReadRecordMsg(true));
    }

    method OnField(e: Event)
      requires e.OnIst? || e.OnPcscf? || e.OnOtherField?
      requires Valid()
      modifies this, helper`actions
      ensures Valid() && OnlyMine()
      ensures forall a :: View() == old(Step(View(), e, a))
    {
      match e
      case OnIst(bit) =>
        if bit != None {
          istPcscf := bit.value;
        }
        RecordRead(Ist);
      case OnPcscf => RecordRead(Pcscf);
      case OnOtherField =>
    }

    method OnIdentity(e: Event)
      requires e.OnImpi? || e.OnImpu? || e.OnDomain?
      requires Valid()
      modifies this, helper`actions
      ensures Valid() && OnlyMine()
      ensures forall a :: View() == old(Step(View(), e, a))
    {
      if !isim {
        return;
      }
      RecordRead(match e case OnImpi => Impi case OnImpu => Impu case OnDomain => Domain);
    }

    method DropRecords()
      requires Valid()
      modifies this`pending, this`records
      ensures Valid() && View() == old(View().(reading := Reset(Idle(View().reading))))
    {
      pending := false;
      records := records - configured;
    }

    method LoseCard(e: IsimError)
      requires Valid()
      modifies this`mode, this`log
      ensures Valid()
      ensures View() == old(if LosesCard(e) && mode != Provisioned then Move(View(), InProvisioning, AtError) else View())
    {
      if e == StartFailed || e == CardError || e == CardRemoved {
        if mode != Provisioned {
          SetState(InProvisioning, AtError);
        }
      }
    }

    method OnReadError(e: IsimError)
      requires Valid()
      modifies this, helper`actions
      ensures Valid() && OnlyMine()
      ensures View() == old(P.HandleReadError(View(), e))
    {
      DropRecords();
      if e == ReadDenied {
        return;
      }
      LoseCard(e);
      RecoverIsimProvisioning(e);
      KeepError(e, e == NoIsimApplication);
    }

    /** Keeps the error and has the listeners told. */
    method KeepError(e: IsimError, noApplication: bool)
      requires Valid()
      modifies this`error, helper`actions
      ensures Valid() && OnlyMine()
      ensures View() == old(Post(View().(error := Some(e)), NotifyErrorMsg(None, noApplication)))
    {
      error := Some(e);
      SendMessage(NotifyErrorMsg(None, noApplication));
    }

    method OnError(e: IsimError)
      requires Valid()
      modifies this, helper`actions
      ensures Valid() && OnlyMine()
      ensures View() == old(P.HandleError(View(), e))
    {
      if !isim || e == RefreshRegFailed {
        return;
      } else if e == ChannelError {
        SendMessage(RecoveryMsg(0));
        return;
      } else if e == RefreshError {
        if mode == Refreshing {
          SetState(Provisioned, AtRefreshError);
        }
        return;
      }
      OnReadError(e);
    }

    /** The records are read again, in a refresh. */
    method StartOver()
      requires Valid()
      modifies this, helper`actions
      ensures Valid() && OnlyMine()
      ensures View() == old(var s := View();
                            P.Post(P.Move(s.(reading := Reset(s.reading)), Refreshing, AtStateChange), RefreshStartedMsg))
    {
      ForgetRecords(false);
      SetState(Refreshing, AtStateChange);
      SendMessage(RefreshStartedMsg);
    }

    method OnIsimInit()
      requires Valid()
      modifies this, helper`actions
      ensures Valid() && OnlyMine()
      ensures View() == old(P.OnIsimInit(View()))
    {
      var restarted := mode == Provisioned;
      if mode == Refreshing {
        if error != Some(NoIsimApplication) {
          return;
        }
      } else if mode == Provisioned {
        StartOver();
      }
      initRetry := 0;
      error := None;
      pending := false;
      SendMessage(StartProvisioningMsg(restarted));
    }

    method OnIsimRefreshing()
      requires Valid()
      modifies this, helper`actions
      ensures Valid() && OnlyMine()
      ensures View() == old(P.OnIsimRefreshing(View()))
    {
      error := None;
      if mode != InProvisioning {
        SetState(Refreshing, AtStateChange);
      }
      SendMessage(RefreshStartedMsg);
    }

    method OnIsimRefreshed()
      requires Valid()
      modifies this, helper`actions
      ensures Valid() && OnlyMine()
      ensures View() == old(P.OnIsimRefreshed(View()))
    {
      startRetry := 0;
      error := None;
      pending := false;
      ghost var s1 := View();
      assert s1 == old(View().(retry := View().retry.(start := 0), error := None, reading := Idle(View().reading)));
      if mode == Provisioned {
        SetState(Refreshing, AtStateChange);
        SendMessage(RefreshStartedMsg);
      }
      assert View().reading == s1.reading;
      ForgetRecords(false);
      SendMessage(StartProvisioningMsg(true));
    }

    method OnStateChanged(st: IsimState)
      requires Valid()
      modifies this, helper`actions
      ensures Valid() && OnlyMine()
      ensures View() == old(P.HandleStateChanged(View(), st))
    {
      if !isim {
        return;
      }
      match st
      case IsimIdle =>
      case IsimInit => OnIsimInit();
      case IsimReady =>
        startRetry := 0;
        error := None;
        SendMessage(ReadRecordMsg(false));
      case IsimRefreshing => OnIsimRefreshing();
      case IsimRefreshed => OnIsimRefreshed();
    }

    method TimerExpired(t: Timer, a: Answers)
      requires Valid()
      modifies this, helper`actions
      ensures Valid() && OnlyMine()
      ensures View() == old(P.HandleTimer(View(), t, a))
    {
      if t !in timers {
        return;
      }
      timers := timers - {t};
      if t == InitTimer {
        if initRetry > 0 {
          InitProvisioning(a);
        }
      } else {
        if startRetry > 0 {
          StartProvisioning(a);
        }
      }
    }

    method CarrierConfigChanged(a: Answers)
      requires Valid()
      modifies this, helper`actions
      ensures Valid() && OnlyMine()
      ensures View() == old(P.HandleCarrierChange(View(), a))
    {
      var oldMode := mode;
      var wasProvisioned := oldMode == Provisioned;
      UpdateAllConfigs(wasProvisioned, a);
      if isim {
        if wasProvisioned {
          SetState(Refreshing, AtCarrierChange);
          Notify(ToldRefreshStarted);
        }
      }
      if !wasProvisioned && oldMode != Init {
        SetState(oldMode, AtCarrierChange);
      }
    }

    method Refresh(a: Answers)
      requires Valid()
      modifies this, helper`actions
      ensures Valid() && OnlyMine()
      ensures View() == old(P.HandleRefresh(View(), a))
    {
      ResetAll();
      SetState(Init, AtRefresh);
      UpdateAllConfigs(true, a);
    }

    method ResetAll()
      requires Valid()
      modifies this
      ensures Valid()
      ensures View() == old(View().(allowed := true, isim := true, error := None,
                                    reading := Reading(false, MANDATORY, {}, false), retry := Retry(0, 0, 0),
                                    timers := {}))
    {
      ForgetRecords(true);
      assert Reset(Reading(false, MANDATORY, {}, false)) == Reading(false, MANDATORY, {}, false);
      allowed, isim := true, true;
      initRetry, rounds, startRetry := 0, 0, 0;
      timers := {};
    }

    /** The update of the whole subscriber information, asked for by message. */
    method UpdateSubscriber()
      requires Valid()
      modifies this, helper`actions
      ensures Valid() && OnlyMine()
      ensures forall a :: View() == old(Step(View(), UpdateSubscriberAll, a))
    {
      SendMessage(UpdateAllMsg);
    }

    method UpdateIsim(enabled: bool)
      requires Valid()
      modifies this`isim
      ensures Valid()
      ensures forall a :: View() == old(Step(View(), UpdateIsimAttribute(enabled), a))
    {
      isim := enabled;
    }

    method SetListener(l: nat)
      requires Valid()
      modifies this, helper`actions
      ensures Valid() && OnlyMine()
      ensures View() == old(P.AddListener(View(), l))
    {
      for i := 0 to |listeners|
        invariant l !in listeners[..i]
        invariant Valid() && OnlyMine() && View() == old(View())
      {
        if listeners[i] == l {
          return;
        }
      }
      listeners := listeners + [l];
      if allowed && isim && error != None {
        SendMessage(NotifyErrorMsg(Some(l), false));
      }
    }

    method RemoveListener(l: nat)
      requires Valid()
      modifies this`listeners
      ensures Valid()
      ensures View() == old(View().(listeners := Without(View().listeners, l)))
    {
      for i := 0 to |listeners|
        invariant listeners == old(listeners) && l !in listeners[..i]
      {
        if listeners[i] == l {
          WithoutAt(listeners, l, i);
          listeners := listeners[..i] + listeners[i + 1..];
          return;
        }
      }
      WithoutNone(listeners, l);
    }
  }
}
