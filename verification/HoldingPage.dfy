/**
 * Browser extension: the holding page as a timed state machine. Replies, rejections, clicks and timers come
 * in any order; time passes only as far as the next armed timer, so a timer that is due fires before the
 * clock goes on. Times are milliseconds since the page loaded.
 */
module HoldingPage {
  const PER_ATTEMPT: nat := 8_000
  const RETRY_AFTER: nat := 1_000
  const HARD_DEADLINE: nat := 12_000

  /** Where `resolveAndRoute` is. */
  datatype Route = Asking(attempt: nat, sentAt: nat) | BackingOff(since: nat) | Over

  /** What the background's apply handler meets: the tab, its URL, the session storage, the navigation. */
  datatype Env = Env(tabKnown: bool, onExtensionPage: bool, storageWorks: bool, updateWorks: bool)

  /** How one call of `applyVerdict` fares; the handler's reply of success or refusal is not looked at. */
  datatype Progress = LookingUpTab | Sent | Handled(env: Env) | Acknowledged(env: Env) | FellBack | NoTab

  /** `auto` says that the automatic path made the call, `releases` that the verdict has no page of its own. */
  datatype Apply = Apply(auto: bool, releases: bool, progress: Progress)

  /** `http` says whether the target is an http(s) URL; `tabLeft` that the tab was sent elsewhere. */
  datatype State = State(http: bool, now: nat, resolved: bool, choiceShown: bool, deadlineArmed: bool, route: Route,
                         attempts: nat, applies: seq<Apply>, wentBack: bool, tabLeft: bool)

  function Load(http: bool): State { State(http, 0, false, false, true, Asking(1, 0), 1, [], false, false) }

  datatype Event =
    | Pass(ms: nat)
    | Verdict(releases: bool) // a reply with a real verdict
    | Pending                 // an empty or ANALYZING reply
    | AskFails                // the question was rejected
    | AttemptTimeout | RetryTimer | HardDeadline | Crash
    | ClickApply(releases: bool) // isolate, allow once, or allow and remember
    | ClickBack
    | TabFound(i: nat) | TabMissing(i: nat)
    | HandleApply(i: nat, env: Env) | Ack(i: nat) | SendFails(i: nat)

  // ----- the background's handlers

  /** The guards of the apply handler: with these, and only with these, the tab is sent on. */
  predicate Accepts(http: bool, releases: bool, env: Env) {
    http && env.tabKnown && env.onExtensionPage && (releases ==> env.storageWorks) && env.updateWorks
  }

  /** The `apply` handler; `moved` says that the tab was navigated, `ok` is the reply. */
  method HandleApplyMessage(http: bool, releases: bool, env: Env) returns (ok: bool, moved: bool)
    ensures ok == moved == Accepts(http, releases, env)
    ensures !http || !env.tabKnown || !env.onExtensionPage || !env.updateWorks ==> !moved
    ensures releases && !env.storageWorks ==> !moved
    ensures http && env.tabKnown && env.onExtensionPage && env.updateWorks && (!releases || env.storageWorks) ==> moved
  {
    if !http {
      return false, false;
    }
    if !env.tabKnown {
      return false, false;
    }
    if !env.onExtensionPage {
      return false, false;
    }
    moved := MoveTab(releases, env);
    ok := moved;
  }

  /** The background's `applyVerdict`: stamp or stash, then navigate; a failed stash is swallowed. */
  method MoveTab(releases: bool, env: Env) returns (moved: bool)
    ensures moved == ((releases ==> env.storageWorks) && env.updateWorks)
  {
    if releases {
      if !env.storageWorks {
        return false;
      }
      return env.updateWorks;
    }
    return env.updateWorks;
  }

  /** The `resolve` handler answers at once, and with ALLOW, for a target that is not http(s). */
  predicate Replies(http: bool, e: Event) {
    match e
    case Verdict(releases) => http || releases
    case Pending => http
    case _ => false
  }

  // ----- the page's handlers

  function ShowTimeoutUI(s: State): State {
    if s.resolved then s else s.(choiceShown := true, deadlineArmed := false)
  }

  function ApplyVerdict(s: State, auto: bool, releases: bool): State {
    s.(resolved := true, applies := s.applies + [Apply(auto, releases, LookingUpTab)])
  }

  /** An attempt ended without a usable verdict. */
  function Missed(s: State): State
    requires s.route.Asking?
  {
    if s.route.attempt == 1 then s.(route := BackingOff(s.now)) else ShowTimeoutUI(s.(route := Over))
  }

  function Answered(s: State, releases: bool): State
    requires s.route.Asking?
  {
    if s.resolved then Missed(s) else ApplyVerdict(s.(route := Over), true, releases)
  }

  function Retried(s: State): State {
    if s.resolved then s.(route := Over) else s.(route := Asking(2, s.now), attempts := s.attempts + 1)
  }

  function Deadlined(s: State): State {
    var t := s.(deadlineArmed := false);
    if s.resolved then t else ShowTimeoutUI(t)
  }

  // ----- an apply under way

  predicate OfApply(e: Event) { e.TabFound? || e.TabMissing? || e.HandleApply? || e.Ack? || e.SendFails? }

  predicate CanProgress(a: Apply, e: Event)
    requires OfApply(e)
  {
    match e
    case TabFound(_) => a.progress.LookingUpTab?
    case TabMissing(_) => a.progress.LookingUpTab?
    case HandleApply(_, _) => a.progress.Sent?
    case Ack(_) => a.progress.Handled?
    case SendFails(_) => a.progress.Sent? || a.progress.Handled?
  }

  function Progressed(a: Apply, e: Event): Apply
    requires OfApply(e) && CanProgress(a, e)
  {
    match e
    case TabFound(_) => a.(progress := Sent)
    case TabMissing(_) => a.(progress := NoTab)
    case HandleApply(_, env) => a.(progress := Handled(env))
    case Ack(_) => a.(progress := Acknowledged(a.progress.env))
    case SendFails(_) => a.(progress := FellBack)
  }

  /** The event sends the tab elsewhere: the handler does, or the page navigates by itself. */
  predicate Leaves(http: bool, a: Apply, e: Event) {
    e.SendFails? || (e.HandleApply? && Accepts(http, a.releases, e.env))
  }

  function ApplyStep(s: State, e: Event): State
    requires OfApply(e)
  {
    if e.i < |s.applies| && CanProgress(s.applies[e.i], e) then
      s.(applies := s.applies[e.i := Progressed(s.applies[e.i], e)],
         tabLeft := s.tabLeft || Leaves(s.http, s.applies[e.i], e))
    else s
  }

  // ----- all events

  /** No armed timer is due before `t`. */
  predicate NoTimerBefore(s: State, t: nat) {
    && (s.deadlineArmed ==> t <= HARD_DEADLINE)
    && (s.route.Asking? ==> t <= s.route.sentAt + PER_ATTEMPT)
    && (s.route.BackingOff? ==> t <= s.route.since + RETRY_AFTER)
  }

  predicate Enabled(s: State, e: Event)
    requires !OfApply(e)
  {
    match e
    case Pass(ms) => NoTimerBefore(s, s.now + ms)
    case Verdict(_) => s.route.Asking? && Replies(s.http, e)
    case Pending => s.route.Asking? && Replies(s.http, e)
    case AskFails => s.route.Asking?
    case AttemptTimeout => s.route.Asking? && s.now == s.route.sentAt + PER_ATTEMPT
    case RetryTimer => s.route.BackingOff? && s.now == s.route.since + RETRY_AFTER
    case HardDeadline => s.deadlineArmed && s.now == HARD_DEADLINE
    case Crash => !s.route.Over?
    case ClickApply(_) => true
    case ClickBack => true
  }

  function PageStep(s: State, e: Event): State
    requires !OfApply(e)
  {
    if !Enabled(s, e) then s else
    match e
    case Pass(ms) => s.(now := s.now + ms)
    case Verdict(releases) => Answered(s, releases)
    case Pending => Missed(s)
    case AskFails => Missed(s)
    case AttemptTimeout => Missed(s)
    case RetryTimer => Retried(s)
    case HardDeadline => Deadlined(s)
    case Crash => ShowTimeoutUI(s.(route := Over))
    case ClickApply(releases) => ApplyVerdict(s, false, releases)
    case ClickBack => s.(resolved := true, deadlineArmed := false, wentBack := true)
  }

  function Next(s: State, e: Event): State { if OfApply(e) then ApplyStep(s, e) else PageStep(s, e) }

  function After(s: State, es: seq<Event>): State {
    if es == [] then s else Next(After(s, es[..|es| - 1]), es[|es| - 1])
  }

  function Run(http: bool, es: seq<Event>): State { After(Load(http), es) }

  // ----- the page's own variables

  class Page {
    var resolved: bool
    var attemptCount: nat
    var choiceShown: bool
    var deadlineArmed: bool
    var applies: seq<Apply>
    var now: nat
    var route: Route
    const http: bool
    ghost var wentBack: bool
    ghost var tabLeft: bool

    ghost function View(): State
      reads this
    {
      State(http, now, resolved, choiceShown, deadlineArmed, route, attemptCount, applies, wentBack, tabLeft)
    }

    constructor (http: bool)
      ensures View() == Load(http)
    {
      this.http := http;
      resolved, attemptCount, choiceShown, deadlineArmed, applies := false, 1, false, true, [];
      now, route, wentBack, tabLeft := 0, Asking(1, 0), false, false;
    }

    method ShowTimeout()
      modifies this
      ensures View() == ShowTimeoutUI(old(View()))
    {
      if resolved {
        return;
      }
      deadlineArmed := false;
      choiceShown := true;
    }

    method SendApply(auto: bool, releases: bool) returns (i: nat)
      modifies this
      ensures i == |old(applies)| && View() == ApplyVerdict(old(View()), auto, releases)
    {
      i := |applies|;
      resolved := true;
      applies := applies + [Apply(auto, releases, LookingUpTab)];
    }

    /** The end of an attempt; `usable` says that a reply with a real verdict came in time. */
    method OnAttemptEnds(usable: bool, releases: bool)
      requires route.Asking?
      modifies this
      ensures View() == (if usable then Answered(old(View()), releases) else Missed(old(View())))
    {
      var first := route.attempt == 1;
      if usable && !resolved {
        route := Over;
        var i := SendApply(true, releases);
        return;
      }
      if first {
        route := BackingOff(now);
      } else {
        route := Over;
        ShowTimeout();
      }
    }

    method OnRetryTimer()
      modifies this
      ensures View() == Retried(old(View()))
    {
      if resolved {
        route := Over;
        return;
      }
      attemptCount := attemptCount + 1;
      route := Asking(2, now);
    }

    method OnHardDeadline()
      modifies this
      ensures View() == Deadlined(old(View()))
    {
      deadlineArmed := false;
      if resolved {
        return;
      }
      ShowTimeout();
    }
  }

  // ----- what every run keeps

  predicate InFlight(p: Progress) { p.LookingUpTab? || p.Sent? || p.Handled? }

  ghost predicate RouteInv(s: State) {
    && (match s.route
        case Asking(a, t) => t <= s.now <= t + PER_ATTEMPT
          && ((a == 1 && t == 0) || (a == 2 && t <= PER_ATTEMPT + RETRY_AFTER))
        case BackingOff(t) => t <= s.now <= t + RETRY_AFTER && t <= PER_ATTEMPT
        case Over => true)
    && s.attempts <= 2 && (s.route.Asking? ==> s.attempts == s.route.attempt)
    && (s.route.BackingOff? ==> s.attempts == 1)
  }

  ghost predicate ResolvedInv(s: State) {
    && (!s.resolved ==> s.applies == [] && !s.wentBack && !s.tabLeft)
    && (s.resolved ==> s.applies != [] || s.wentBack)
    && (s.resolved || s.choiceShown || (s.deadlineArmed && s.now <= HARD_DEADLINE))
    && (forall i :: 0 < i < |s.applies| ==> !s.applies[i].auto)
    && (s.applies != [] && s.applies[0].auto ==> s.route.Over?)
    && (s.choiceShown && (!s.route.Over? || (s.applies != [] && s.applies[0].auto)) ==> s.attempts == 2)
  }

  /** This call sent the tab elsewhere: the handler's guards let it, or the page navigated by itself. */
  predicate Moved(http: bool, a: Apply) {
    a.progress.FellBack?
    || ((a.progress.Handled? || a.progress.Acknowledged?) && Accepts(http, a.releases, a.progress.env))
  }

  ghost predicate TabInv(s: State) {
    s.tabLeft <==> exists i :: 0 <= i < |s.applies| && Moved(s.http, s.applies[i])
  }

  ghost predicate Inv(s: State) { RouteInv(s) && ResolvedInv(s) && TabInv(s) }

  lemma {:induction false} RouteKeeps(s: State, e: Event)
    requires RouteInv(s)
    ensures RouteInv(Next(s, e))
  {
    if OfApply(e) {
      hide PageStep, Progressed, Leaves;
    } else {
      hide ApplyStep;
      PageRouteKeeps(s, e);
    }
  }

  lemma {:induction false} VerdictRouteKeeps(s: State, releases: bool)
    requires RouteInv(s)
    ensures RouteInv(PageStep(s, Verdict(releases)))
  {
  }

  lemma {:induction false} PageRouteKeeps(s: State, e: Event)
    requires RouteInv(s) && !OfApply(e)
    ensures RouteInv(PageStep(s, e))
  {
    if e.Verdict? {
      hide PageStep;
      VerdictRouteKeeps(s, e.releases);
    } else {
      hide Answered, ApplyVerdict;
      if e.ClickApply? { ClickRouteKeeps(s, e.releases); }
    }
  }

  lemma {:induction false} ClickRouteKeeps(s: State, releases: bool)
    requires RouteInv(s)
    ensures RouteInv(ApplyVerdict(s, false, releases))
  {
  }

  lemma {:induction false} ProgressResolved(s: State, e: Event)
    requires ResolvedInv(s) && OfApply(e)
    ensures ResolvedInv(ApplyStep(s, e))
  {
  }

  lemma {:induction false} ResolvedKeeps(s: State, e: Event)
    requires RouteInv(s) && ResolvedInv(s)
    ensures ResolvedInv(Next(s, e))
  {
    hide Accepts, Progressed, CanProgress, Leaves, ApplyStep;
    if OfApply(e) { ProgressResolved(s, e); }
  }

  lemma {:induction false} ProgressMoves(http: bool, a: Apply, e: Event)
    requires OfApply(e) && CanProgress(a, e)
    ensures Moved(http, Progressed(a, e)) <==> Moved(http, a) || Leaves(http, a, e)
  {
  }

  lemma {:induction false} ProgressTab(s: State, e: Event)
    requires TabInv(s) && OfApply(e)
    ensures TabInv(ApplyStep(s, e))
  {
    hide Progressed, Moved, CanProgress, Leaves;
    if e.i < |s.applies| && CanProgress(s.applies[e.i], e) {
      ProgressMoves(s.http, s.applies[e.i], e);
      var t := ApplyStep(s, e);
      assert Moved(t.http, t.applies[e.i]) <==> Moved(s.http, s.applies[e.i]) || Leaves(s.http, s.applies[e.i], e);
      assert forall i :: 0 <= i < |s.applies| && i != e.i ==> t.applies[i] == s.applies[i];
    }
  }

  /** Nothing about calls and tab has changed from `s` to `t`. */
  predicate SameCalls(s: State, t: State) {
    t.http == s.http && t.tabLeft == s.tabLeft && t.applies == s.applies && (s.resolved ==> t.resolved)
  }

  lemma {:induction false} ShowTimeoutCalls(s: State)
    ensures SameCalls(s, ShowTimeoutUI(s)) && ShowTimeoutUI(s).wentBack == s.wentBack
  {
  }

  lemma {:induction false} MissedCalls(s: State)
    requires s.route.Asking?
    ensures SameCalls(s, Missed(s)) && Missed(s).wentBack == s.wentBack
  {
  }

  lemma {:induction false} DeadlinedCalls(s: State)
    ensures SameCalls(s, Deadlined(s)) && Deadlined(s).wentBack == s.wentBack
  {
  }

  /** An event that makes no call leaves the applies alone. */
  lemma {:induction false} NoCall(s: State, e: Event)
    requires !OfApply(e) && !e.Verdict? && !e.ClickApply?
    ensures SameCalls(s, PageStep(s, e)) && (PageStep(s, e).wentBack ==> s.wentBack || e.ClickBack?)
  {
    hide NoTimerBefore, Missed, ShowTimeoutUI, Deadlined, Replies;
    if s.route.Asking? { MissedCalls(s); }
    DeadlinedCalls(s);
    ShowTimeoutCalls(s.(route := Over));
  }

  /** What an event on the page does to the applies: nothing, or one more call. */
  lemma {:induction false} PageStepApplies(s: State, e: Event)
    requires !OfApply(e)
    ensures var t := PageStep(s, e);
      && t.http == s.http && t.tabLeft == s.tabLeft && (s.resolved ==> t.resolved)
      && (t.wentBack ==> s.wentBack || e.ClickBack?)
      && (t.applies == s.applies || (t.resolved && exists auto, releases ::
            t.applies == s.applies + [Apply(auto, releases, LookingUpTab)] && (auto ==> e.Verdict? && !s.resolved)
            && (!auto ==> e.ClickApply?)))
  {
    if e.Verdict? {
      AnsweredCalls(s, e);
    } else if e.ClickApply? {
      assert ApplyVerdict(s, false, e.releases).applies == s.applies + [Apply(false, e.releases, LookingUpTab)];
    } else {
      hide PageStep;
      NoCall(s, e);
    }
  }

  lemma {:induction false} AnsweredCalls(s: State, e: Event)
    requires e.Verdict?
    ensures var t := PageStep(s, e);
      && t.http == s.http && t.tabLeft == s.tabLeft && (s.resolved ==> t.resolved) && t.wentBack == s.wentBack
      && (t.applies == s.applies
          || (t.resolved && !s.resolved && t.applies == s.applies + [Apply(true, e.releases, LookingUpTab)]))
  {
  }

  lemma {:induction false} TabKeeps(s: State, e: Event)
    requires TabInv(s)
    ensures TabInv(Next(s, e))
  {
    hide Accepts, ApplyStep, PageStep;
    if OfApply(e) {
      ProgressTab(s, e);
    } else {
      PageStepApplies(s, e);
      var t := PageStep(s, e);
      assert forall i :: 0 <= i < |s.applies| ==> t.applies[i] == s.applies[i];
    }
  }

  lemma {:induction false} Always(http: bool, es: seq<Event>)
    ensures Inv(Run(http, es)) && Run(http, es).http == http
  {
    hide Next, RouteInv, ResolvedInv, TabInv;
    if es == [] {
      InvAtFirst(http);
    } else {
      var (s, e) := (Run(http, es[..|es| - 1]), es[|es| - 1]);
      Always(http, es[..|es| - 1]);
      RouteKeeps(s, e);
      ResolvedKeeps(s, e);
      TabKeeps(s, e);
      SameTarget(s, e);
    }
  }

  lemma {:induction false} InvAtFirst(http: bool)
    ensures Inv(Load(http))
  {
  }

  lemma {:induction false} SameTarget(s: State, e: Event)
    ensures Next(s, e).http == s.http
  {
    hide PageStep;
    if !OfApply(e) { PageStepApplies(s, e); }
  }

  /** By twelve seconds the page is resolved or shows the choice, for every order of events. */
  lemma {:induction false} NeverJustWaiting(http: bool, es: seq<Event>)
    ensures var s := Run(http, es);
      s.resolved || s.choiceShown || s.now < 12_000 || (s.now == 12_000 && s.deadlineArmed)
    ensures Run(http, es).now == 12_000 && Run(http, es).deadlineArmed ==>
      var t := Next(Run(http, es), HardDeadline); t.resolved || t.choiceShown
  {
    hide Run, RouteInv, TabInv;
    Always(http, es);
  }

  /**
   * The automatic path asks at most twice, is over by seventeen seconds, and
   * sends at most one apply, before any other.
   */
  lemma {:induction false} AutomaticPathIsBounded(http: bool, es: seq<Event>)
    ensures var s := Run(http, es);
      s.attempts <= 2 && (s.route.Over? || s.now <= 17_000)
      && forall i :: 0 <= i < |s.applies| && s.applies[i].auto ==> i == 0
  {
    hide Run, TabInv;
    Always(http, es);
  }

  lemma {:induction false} AppliesGrow(s: State, e: Event)
    requires s.resolved
    ensures var t := Next(s, e);
      && |s.applies| <= |t.applies| && t.resolved
      && (forall i :: 0 <= i < |s.applies| ==> t.applies[i].auto == s.applies[i].auto)
      && forall i :: |s.applies| <= i < |t.applies| ==> !t.applies[i].auto
  {
    hide PageStep;
    if !OfApply(e) { PageStepApplies(s, e); }
  }

  /** Once the user or the automatic path has resolved the page, no automatic apply follows, ever. */
  lemma {:induction false} NoAutomaticApplyAfterResolution(s: State, more: seq<Event>)
    requires s.resolved
    ensures After(s, more).resolved && |s.applies| <= |After(s, more).applies|
    ensures forall i :: |s.applies| <= i < |After(s, more).applies| ==> !After(s, more).applies[i].auto
  {
    hide Next;
    if more != [] {
      NoAutomaticApplyAfterResolution(s, more[..|more| - 1]);
      AppliesGrow(After(s, more[..|more| - 1]), more[|more| - 1]);
    }
  }

  /** A real verdict on an unresolved page is applied, whether or not the choice is already shown. */
  lemma {:induction false} VerdictIsApplied(s: State, releases: bool)
    requires s.route.Asking? && (s.http || releases)
    ensures var t := Next(s, Verdict(releases));
      if s.resolved then t.applies == s.applies
      else t.resolved && t.route.Over? && t.applies == s.applies + [Apply(true, releases, LookingUpTab)]
  {
  }

  /** A click applies its verdict whatever has happened; going back ends the automatic path without a call. */
  lemma {:induction false} ClicksAct(s: State, releases: bool)
    ensures var t := Next(s, ClickApply(releases));
      t.resolved && t.applies == s.applies + [Apply(false, releases, LookingUpTab)] && t.choiceShown == s.choiceShown
    ensures var t := Next(s, ClickBack);
      t.resolved && t.wentBack && !t.deadlineArmed && t.applies == s.applies && t.choiceShown == s.choiceShown
  {
  }

  /** A page resolved during the back-off asks no second question; its automatic path is over. */
  lemma {:induction false} ResolvedAsksNoMore(s: State)
    requires s.resolved && s.route.BackingOff? && s.now == s.route.since + 1_000
    ensures Next(s, RetryTimer) == s.(route := Over)
  {
  }

  /** If the automatic path breaks down on an unresolved page, the choice is shown at once. */
  lemma {:induction false} CrashShowsChoice(s: State)
    requires !s.route.Over?
    ensures Next(s, Crash).route.Over? && (Next(s, Crash).choiceShown <==> s.choiceShown || !s.resolved)
  {
  }

  /**
   * A page whose first question fails asks again exactly a second later, and shows the choice when the second
   * fails too, unless the deadline has shown it before.
   */
  lemma {:induction false} NobodyAnswers(http: bool, first: nat, second: nat)
    requires first <= 8_000 && first + second <= 11_000 && second <= 8_000
    ensures var a := Next(Next(Load(http), Pass(first)), AskFails);
      var b := Next(Next(a, Pass(1_000)), RetryTimer);
      var c := Next(Next(b, Pass(second)), AskFails);
      && a.route == BackingOff(first) && !a.choiceShown && a.attempts == 1
      && (forall ms :: ms != 1_000 ==> Next(Next(a, Pass(ms)), RetryTimer).attempts == 1)
      && b.route == Asking(2, first + 1_000) && !b.choiceShown && b.attempts == 2
      && c.route == Over && c.choiceShown && !c.resolved && c.applies == [] && c.now == first + second + 1_000
  {
  }

  /** An unanswered question ends by itself after exactly eight seconds. */
  lemma {:induction false} QuestionTimesOut(http: bool, ms: nat)
    ensures var a := Next(Load(http), Pass(ms));
      && (a.now == ms <==> ms <= 8_000) && (Next(a, AttemptTimeout).route.BackingOff? <==> ms == 8_000)
  {
  }

  /** The page of a question that timed out asks again at nine seconds. */
  lemma {:induction false} SecondQuestion(http: bool)
    ensures var a := Next(Next(Next(Next(Load(http), Pass(8_000)), AttemptTimeout), Pass(1_000)), RetryTimer);
      a == Load(http).(now := 9_000, route := Asking(2, 9_000), attempts := 2)
  {
  }

  /** If that is not answered either, the deadline shows the choice at twelve seconds, and not before. */
  lemma {:induction false} DeadlineAtTwelve(http: bool, ms: nat)
    requires ms <= 3_000
    ensures var a := Load(http).(now := 9_000, route := Asking(2, 9_000), attempts := 2);
      var b := Next(Next(a, Pass(ms)), HardDeadline);
      b.now == 9_000 + ms && (b.choiceShown <==> ms == 3_000)
  {
  }

  // ----- being stranded

  /** Every question is over and every apply has been answered, has failed, or was never sent. */
  predicate Quiet(s: State) {
    s.route.Over? && forall i :: 0 <= i < |s.applies| ==> !InFlight(s.applies[i].progress)
  }

  /** Nothing more will happen by itself, the tab was not moved, and the user has neither left nor a choice. */
  predicate Stranded(s: State) {
    Quiet(s) && s.resolved && !s.choiceShown && !s.wentBack && !s.tabLeft
  }

  /** The call did not find its tab, or a guard of the handler refused it. */
  predicate Failed(http: bool, a: Apply) {
    a.progress.NoTab? || (a.progress.Acknowledged? && !Accepts(http, a.releases, a.progress.env))
  }

  /**
   * Over every run that has come to rest on a resolved page: it is stranded exactly if the user has neither
   * gone back nor been shown the choice, and each apply, automatic or not, lost its tab or met a guard of
   * the handler. Resolution is recorded before the reply, and the reply is not looked at.
   */
  lemma {:induction false} StrandedIff(http: bool, es: seq<Event>)
    requires Run(http, es).resolved && Quiet(Run(http, es))
    ensures var s := Run(http, es);
      Stranded(s) <==> !s.choiceShown && !s.wentBack && forall i :: 0 <= i < |s.applies| ==> Failed(http, s.applies[i])
  {
    hide Run, RouteInv, ResolvedInv;
    Always(http, es);
    var s := Run(http, es);
    forall i | 0 <= i < |s.applies| ensures Failed(http, s.applies[i]) <==> !Moved(http, s.applies[i]) {
      assert !InFlight(s.applies[i].progress);
    }
  }

  predicate ByItself(e: Event) { !e.ClickApply? && !e.ClickBack? }

  predicate Unaided(es: seq<Event>) { forall i :: 0 <= i < |es| ==> ByItself(es[i]) && !es[i].SendFails? }

  lemma {:induction false} UnaidedStep(s: State, e: Event)
    requires ByItself(e) && !e.SendFails? && !s.wentBack
    requires forall i :: 0 <= i < |s.applies| ==> s.applies[i].auto && !s.applies[i].progress.FellBack?
    ensures var t := Next(s, e);
      !t.wentBack && forall i :: 0 <= i < |t.applies| ==> t.applies[i].auto && !t.applies[i].progress.FellBack?
  {
    hide PageStep, Leaves;
    if !OfApply(e) { PageStepApplies(s, e); }
  }

  lemma {:induction false} UnaidedRun(http: bool, es: seq<Event>)
    requires Unaided(es)
    ensures var s := Run(http, es);
      !s.wentBack && forall i :: 0 <= i < |s.applies| ==> s.applies[i].auto && !s.applies[i].progress.FellBack?
  {
    hide Next;
    if es != [] {
      UnaidedRun(http, es[..|es| - 1]);
      UnaidedStep(Run(http, es[..|es| - 1]), es[|es| - 1]);
    }
  }

  /**
   * A target that is not http(s) is answered with ALLOW and then refused: no run moves its tab unless a
   * message is lost, and every run whose first question is answered ends stranded, whatever the
   * environment. If only the second is, it does exactly if that came before the deadline.
   */
  lemma {:induction false} NonHttpStrands(es: seq<Event>)
    requires Unaided(es)
    ensures var s := Run(false, es);
      && !s.tabLeft
      && (s.applies != [] && Quiet(s) ==> (Stranded(s) <==> !s.choiceShown))
      && (s.applies != [] && Quiet(s) && s.attempts == 1 ==> Stranded(s))
  {
    hide Run, RouteInv;
    Always(false, es);
    UnaidedRun(false, es);
  }

  /** The tab is found, it still hosts the page, and storage and navigation work. */
  predicate Reliable(e: Event) {
    !e.TabMissing? && (e.HandleApply? ==> e.env == Env(true, true, true, true))
  }

  predicate Arrives(a: Apply) {
    !a.progress.NoTab? &&
    (a.progress.Handled? || a.progress.Acknowledged? ==> a.progress.env == Env(true, true, true, true))
  }

  lemma {:induction false} ReliableStep(s: State, e: Event)
    requires Reliable(e) && forall i :: 0 <= i < |s.applies| ==> Arrives(s.applies[i])
    ensures forall i :: 0 <= i < |Next(s, e).applies| ==> Arrives(Next(s, e).applies[i])
  {
    hide PageStep, Leaves;
    if !OfApply(e) { PageStepApplies(s, e); }
  }

  lemma {:induction false} ReliableRun(http: bool, es: seq<Event>)
    requires forall i :: 0 <= i < |es| ==> Reliable(es[i])
    ensures forall i :: 0 <= i < |Run(http, es).applies| ==> Arrives(Run(http, es).applies[i])
  {
    hide Next, Reliable, Arrives;
    if es != [] {
      ReliableRun(http, es[..|es| - 1]);
      ReliableStep(Run(http, es[..|es| - 1]), es[|es| - 1]);
    }
  }

  /** For an http(s) target in a reliable environment no run strands the page, and every apply moves the tab. */
  lemma {:induction false} ReliableNeverStrands(es: seq<Event>)
    requires forall i :: 0 <= i < |es| ==> Reliable(es[i])
    ensures var s := Run(true, es);
      !Stranded(s) && (s.applies != [] && Quiet(s) ==> s.tabLeft)
  {
    hide Run, RouteInv;
    Always(true, es);
    ReliableRun(true, es);
    var s := Run(true, es);
    if s.applies != [] && Quiet(s) { assert Moved(true, s.applies[0]); }
  }

  /** A stranded page stays stranded until the user acts. */
  lemma {:induction false} StrandedForGood(s: State, more: seq<Event>)
    requires Stranded(s) && forall i :: 0 <= i < |more| ==> ByItself(more[i])
    ensures Stranded(After(s, more))
  {
    if more != [] { StrandedForGood(s, more[..|more| - 1]); }
  }

  lemma {:induction false} AfterStep(s: State, es: seq<Event>, e: Event)
    ensures After(s, es + [e]) == Next(After(s, es), e)
  {
  }

  lemma {:induction false} QuickVerdict(http: bool, ms: nat, releases: bool)
    requires ms <= 8_000 && (http || releases)
    ensures var s := Next(Next(Load(http), Pass(ms)), Verdict(releases));
      && s.http == http && s.applies == [Apply(true, releases, LookingUpTab)]
      && s.resolved && s.route.Over? && !s.choiceShown && !s.wentBack && !s.tabLeft
  {
  }

  lemma {:induction false} ApplyRuns(s: State, releases: bool, env: Env)
    requires s.applies == [Apply(true, releases, LookingUpTab)]
    ensures Next(Next(Next(s, TabFound(0)), HandleApply(0, env)), Ack(0)) ==
      s.(applies := [Apply(true, releases, Acknowledged(env))], tabLeft := s.tabLeft || Accepts(s.http, releases, env))
  {
  }

  /** A verdict within the first attempt strands the page exactly if a guard of the apply handler refuses it. */
  lemma {:induction false} QuickVerdictStrandsIff(http: bool, ms: nat, releases: bool, env: Env)
    requires ms <= 8_000 && (http || releases)
    ensures var s := Run(http, [Pass(ms)] + [Verdict(releases)] + [TabFound(0)] + [HandleApply(0, env)] + [Ack(0)]);
      (Stranded(s) <==> !Accepts(http, releases, env)) && (s.tabLeft <==> Accepts(http, releases, env))
  {
    hide After, Accepts, Next;
    var s := Load(http);
    var es := [Pass(ms)] + [Verdict(releases)];
    NoEvents(s);
    assert [] + [Pass(ms)] == [Pass(ms)];
    AfterStep(s, [], Pass(ms));
    AfterStep(s, [Pass(ms)], Verdict(releases));
    AfterStep(s, es, TabFound(0));
    AfterStep(s, es + [TabFound(0)], HandleApply(0, env));
    AfterStep(s, es + [TabFound(0)] + [HandleApply(0, env)], Ack(0));
    QuickVerdict(http, ms, releases);
    ApplyRuns(After(s, es), releases, env);
  }

  /** A verdict within the first attempt whose tab is not found strands the page, whatever the verdict is. */
  lemma {:induction false} LostTabStrands(http: bool, ms: nat, releases: bool)
    requires ms <= 8_000 && (http || releases)
    ensures Stranded(Next(Next(Next(Load(http), Pass(ms)), Verdict(releases)), TabMissing(0)))
  {
    hide PageStep;
    QuickVerdict(http, ms, releases);
  }

  lemma {:induction false} NoEvents(s: State)
    ensures After(s, []) == s
  {
  }
}
