/** The lifecycle state of the process, and the endpoints that report it. */
module Bridge {
  import opened Wrappers
  import Metrics
  import opened MetricsRegistry

  datatype State = Starting | Ready | ShuttingDown

  /** What the bridge's lock protects. */
  datatype Lifecycle = Lifecycle(state: State, readyAt: Option<int>)

  const FRESH := Lifecycle(Starting, None)

  /** The critical section of Start: a termination that came first wins. */
  function Started(l: Lifecycle, at: int): Lifecycle {
    if l.state == Starting then Lifecycle(Ready, Some(at)) else l
  }

  function Stopping(l: Lifecycle): Lifecycle { l.(state := ShuttingDown) }

  datatype Effect = ProviderShutDown(failed: bool) | TracerStopped

  class Bridge {
    const metrics: Registrar
    /** The init timeout, printed. */
    const initTimeout: string
    var state: State
    var readyAt: Option<int>
    /** What the process asked of the provider and the tracer, in order. */
    var effects: seq<Effect>

    function View(): Lifecycle
      reads this
    {
      Lifecycle(state, readyAt)
    }

    constructor (metrics: Registrar, initTimeout: string)
      ensures this.metrics == metrics && this.initTimeout == initTimeout && View() == FRESH && effects == []
    {
      this.metrics, this.initTimeout := metrics, initTimeout;
      state, readyAt, effects := Starting, None, [];
    }

    /** Start after the provider's initialization has returned, with an error or at a time. */
    method Start(initialized: Result<int, string>) returns (err: Option<string>)
      requires metrics.Valid() && this !in metrics.Repr
      modifies this`state, this`readyAt, metrics
      ensures metrics.Valid() && metrics.Repr == old(metrics.Repr)
      ensures initialized.Failure? ==>
                && err == Some("waiting for the first flag configuration (DDFLAGD_INIT_TIMEOUT=" + initTimeout + "): "
                               + initialized.error)
                && View() == old(View())
                && metrics.View() == Metrics.Fail(old(metrics.View()),
                     "provider initialization failed: " + initialized.error)
      ensures initialized.Success? ==>
                && err == None
                && View() == Started(old(View()), initialized.value)
                && metrics.View() ==
                   if View().state == Ready then Metrics.ReadyAt(old(metrics.View()), initialized.value)
                   else old(metrics.View())
    {
      if initialized.Failure? {
        metrics.RecordError("provider initialization failed: " + initialized.error);
        return Some("waiting for the first flag configuration (DDFLAGD_INIT_TIMEOUT=" + initTimeout + "): "
                    + initialized.error);
      }
      if state == Starting {
        state, readyAt := Ready, Some(initialized.value);
      }
      if state == Ready {
        metrics.SetProviderReady(initialized.value);
      }
      err := None;
    }

    method BeginShutdown()
      modifies this`state
      ensures View() == Stopping(old(View()))
    {
      state := ShuttingDown;
    }

    /** Flushes the provider, whose own shutdown may fail, and then stops the tracer. */
    method Shutdown(providerFails: bool) returns (failed: bool)
      modifies this`state, this`effects
      ensures View() == Stopping(old(View())) && failed == providerFails
      ensures effects == old(effects) + [ProviderShutDown(providerFails), TracerStopped]
    {
      BeginShutdown();
      effects := effects + [ProviderShutDown(providerFails)];
      effects := effects + [TracerStopped];
      failed := providerFails;
    }
  }

  // ----- the operational listener's view

  datatype Probe = Probe(status: int, state: State, readyAt: Option<int>)

  function Readyz(l: Lifecycle): Probe {
    if l.state == Ready then Probe(200, Ready, l.readyAt) else Probe(503, l.state, None)
  }

  /** The probe succeeds exactly when the bridge is ready, and then tells since when. */
  lemma ReadyzTells(l: Lifecycle)
    ensures Readyz(l).status == (if l.state == Ready then 200 else 503) && Readyz(l).state == l.state
    ensures Readyz(l).readyAt == if l.state == Ready then l.readyAt else None
  {}

  /** The parts of /debug/status that depend on the run. */
  datatype Report = Report(
    state: State,
    readyAt: Option<int>,
    evaluations: map<Metrics.Outcome, nat>,
    lastError: Option<string>)

  function Status(l: Lifecycle, m: Metrics.Registry): Report {
    Report(l.state, l.readyAt, m.evaluations, m.lastError)
  }
}
