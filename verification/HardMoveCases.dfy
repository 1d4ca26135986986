/** Small gateways in which a hard requirement does what a reader would not expect. */
module HardMoveCases {
  import opened Wrappers
  import opened Catalogs
  import opened Selection
  import opened Sessions
  import opened Strategies
  import opened FreshManual
  import opened Gaps
  import opened HardMoves
  import opened Pins

  // One label with two models, and a session pinned to the first

  function Model(name: string, window: Option<int>, output: Option<int>, tools: bool): Profile {
    Profile(name, true, [], 0, 0.5, window, output, tools, true, true, 0.0, 0.0)
  }

  /** The default pin reasons and pressure ratio. */
  function PinningStrategy(round: real -> real): Strategy {
    Strategy(
      "task_aware",
      Policy(Sticky, "balanced", [Label("work", Route(["p/a", "p/b"], true, None, "", None))],
             Escalation(2.0, 2.0), Hysteresis(2.0, 45.0, 8.0), [CAPABILITY_GAP, CONTEXT_PRESSURE, OUTPUT_LIMIT],
             Budget(None, 0.75), None),
      round)
  }

  const PINNED := Session("s", "p/a", "work", Some(false), None, 0.0, 0.0, None, 1, 0, 0.0, 0, 0, 0, 0.0, [])

  /** 576 tokens and the default output make 1600. */
  function Ask(tools: bool): Facts {
    Facts(576, None, tools, false, false, None)
  }

  function AskOn(facts: Facts): Request {
    Request(facts, Some(PINNED), None, 2, 0.0)
  }

  lemma StrategyPins(round: real -> real)
    ensures PinsForHard(PinningStrategy(round)) && CONTEXT_PRESSURE in PinningStrategy(round).policy.breakOn
    ensures CAPABILITY_GAP in PinningStrategy(round).policy.breakOn && OUTPUT_LIMIT in PinningStrategy(round).policy.breakOn
    ensures HasLabel(PinningStrategy(round).policy.labels, "work")
  {
    OtherReasons();
    assert PinningStrategy(round).policy.labels[0].name == "work";
  }

  predicate Sized(p: Profile) {
    p.enabled && (p.contextWindow.Some? ==> p.contextWindow.value > 0)
  }

  /** Both of them are eligible, and the label's pool has the first. */
  lemma TwoModels(round: real -> real, a: Profile, b: Profile)
    requires a.name == "p/a" && b.name == "p/b" && Sized(a) && Sized(b)
    ensures var s, c := PinningStrategy(round), Catalog([a, b], None);
      && PositiveWindows(c.profiles) && UniqueNames(c.profiles) && ByName(c.profiles, "p/a") == Some(a)
      && Continues(s, c, PINNED) && !AtDefault(s, c, "work")
      && forall p :: Other(s, c, a, p) <==> p == b
  {
    var s, c := PinningStrategy(round), Catalog([a, b], None);
    StrategyPins(round);
    assert "p/a"[2] != "p/b"[2];
    assert c.profiles[0] == a && c.profiles[1] == b;
    assert a in Named(s.policy, c, ["p/a", "p/b"]) by {
      assert ["p/a", "p/b"][0] == "p/a";
    }
    assert IndexOf(s.policy.labels, "work") == 0;
  }

  /** So a move can only lead to the second. */
  lemma OnlyTheSecond(round: real -> real, a: Profile, b: Profile, facts: Facts)
    requires a.name == "p/a" && b.name == "p/b" && Sized(a) && Sized(b)
    requires var hard := HardRequirement(PinningStrategy(round), a, facts);
      hard.Some? && hard.value.reason in PinningStrategy(round).policy.breakOn && Improves(b, a, hard.value.reason)
    ensures var s, c := PinningStrategy(round), Catalog([a, b], None);
      Decide(s, c, AskOn(facts)).Ok? && Decide(s, c, AskOn(facts)).value.model == "p/b"
      && Decide(s, c, AskOn(facts)).value.switchedFrom == Some("p/a")
  {
    var s, c := PinningStrategy(round), Catalog([a, b], None);
    var hard := HardRequirement(s, a, facts).value;
    StrategyPins(round);
    TwoModels(round, a, b);
    assert Other(s, c, a, b);
    HardSelection(s, c, a, "work", facts, hard);
    LeadsIff(s, c, HardQuery(a, "work", facts, hard), b);
    assert Takes(s, c, a, "work", facts, b);
    PinnedTurnIff(s, c, AskOn(facts));
  }

  /** The pinned model serves the request in full, and the turn moves it: 1600 tokens are more than three quarters of 2000. */
  lemma ServedPinMoves(round: real -> real)
    ensures var a, b := Model("p/a", Some(2000), None, true), Model("p/b", Some(4000), None, true);
      var o := Decide(PinningStrategy(round), Catalog([a, b], None), AskOn(Ask(false)));
      CanServe(a, Ask(false)) && o.Ok? && o.value.model == "p/b" && o.value.switchedFrom == Some("p/a")
  {
    var a, b := Model("p/a", Some(2000), None, true), Model("p/b", Some(4000), None, true);
    StrategyPins(round);
    ReasonsDiffer();
    OnlyTheSecond(round, a, b, Ask(false));
  }

  /** With no other model to ask, the same request is refused, although the session's model serves it. */
  lemma ServedPinIsRefused(round: real -> real)
    ensures var a := Model("p/a", Some(2000), None, true);
      CanServe(a, Ask(false)) && Decide(PinningStrategy(round), Catalog([a], None), AskOn(Ask(false))).Err?
  {
    var s, a := PinningStrategy(round), Model("p/a", Some(2000), None, true);
    var c := Catalog([a], None);
    StrategyPins(round);
    assert a in Named(s.policy, c, ["p/a", "p/b"]) by {
      assert ["p/a", "p/b"][0] == "p/a";
    }
    assert IndexOf(s.policy.labels, "work") == 0;
    assert ByName(c.profiles, "p/a") == Some(a) && !OtherExists(s, c, a);
    PinnedTurnIff(s, c, AskOn(Ask(false)));
  }

  /** Relief from pressure can cost the session a capability it has: the larger model has no tools. */
  lemma PressureMoveLosesSupport(round: real -> real)
    ensures var a, b := Model("p/a", Some(2000), None, true), Model("p/b", Some(4000), None, false);
      var o := Decide(PinningStrategy(round), Catalog([a, b], None), AskOn(Ask(true)));
      CanServe(a, Ask(true)) && o.Ok? && o.value.model == "p/b" && !Supports(b, Ask(true))
  {
    var a, b := Model("p/a", Some(2000), None, true), Model("p/b", Some(4000), None, false);
    StrategyPins(round);
    ReasonsDiffer();
    OnlyTheSecond(round, a, b, Ask(true));
  }

  /** Relief from an output limit can cost it the context: the model without the limit cannot hold the request. */
  lemma OutputMoveLosesContext(round: real -> real)
    ensures var a, b := Model("p/a", Some(9000), Some(512), true), Model("p/b", Some(1000), None, true);
      var o := Decide(PinningStrategy(round), Catalog([a, b], None), AskOn(Ask(false)));
      Holds(a, Ask(false)) && o.Ok? && o.value.model == "p/b" && !Holds(b, Ask(false))
  {
    var a, b := Model("p/a", Some(9000), Some(512), true), Model("p/b", Some(1000), None, true);
    StrategyPins(round);
    ReasonsDiffer();
    OnlyTheSecond(round, a, b, Ask(false));
  }

  // A first candidate that is too small hides the one behind it

  const SHORT := Model("p/a", Some(2000), None, true)
  const SHORTER := Model("p/b", Some(1700), None, true)
  const LONG := Model("p/c", Some(8000), None, true)
  const THREE := Catalog([SHORT, SHORTER, LONG], None)

  lemma ThreeModels(round: real -> real)
    ensures var s := PinningStrategy(round);
      && PositiveWindows(THREE.profiles)
      && HasLabel(s.policy.labels, "work") && TierPool(s.name, s.policy, THREE, "work") == [SHORT, SHORTER]
      && Other(s, THREE, SHORT, LONG)
  {
    var s := PinningStrategy(round);
    StrategyPins(round);
    assert "p/a"[2] != "p/b"[2] && "p/a"[2] != "p/c"[2] && "p/b"[2] != "p/c"[2];
    assert THREE.profiles[1..] == [SHORTER, LONG] && [SHORTER, LONG][0] == SHORTER;
    assert ByName(THREE.profiles, "p/a") == Some(SHORT) && ByName(THREE.profiles, "p/b") == Some(SHORTER);
    var models := ["p/a", "p/b"];
    assert models[1..] == ["p/b"] && ["p/b"][1..] == [];
    assert Named(s.policy, THREE, ["p/b"]) == [SHORTER];
    assert Named(s.policy, THREE, models) == [SHORT, SHORTER];
    assert IndexOf(s.policy.labels, "work") == 0;
  }

  lemma ShorterComesFirst(round: real -> real)
    ensures var s := PinningStrategy(round); var q := Query("work", Ask(false), Some("p/a"), Some(1600));
      HasLabel(s.policy.labels, "work") && ComesFirst(s, THREE, q, SHORTER)
  {
    var s, q := PinningStrategy(round), Query("work", Ask(false), Some("p/a"), Some(1600));
    ThreeModels(round);
    assert "p/a"[2] != "p/b"[2];
    var pool := [SHORT, SHORTER];
    assert pool[1..] == [SHORTER] && [SHORTER][1..] == [];
    var step := Steps(q)[0];
    assert !Admits(q, step, SHORT) && Admits(q, step, SHORTER);
    assert Admitted(q, step, [SHORTER]) == [SHORTER];
    assert Admitted(q, step, pool) == [SHORTER];
    assert Pool(s, THREE, q, false) == pool;
    assert FirstAt(s, THREE, q, SHORTER, 0, 0);
  }

  /**
   Under pressure, with a model that holds the request far from it, the session does not move: the
   first candidate has the smaller window, and no second one is asked.
   */
  lemma PressureIsNotRelieved(round: real -> real)
    ensures var s := PinningStrategy(round); var required := RequiredContext(Ask(false));
      && KnownTier(s, "work") && OverPressure(s, SHORT, required)
      && Other(s, THREE, SHORT, LONG) && CanServe(LONG, Ask(false)) && !OverPressure(s, LONG, required)
      && HardMove(s, THREE, SHORT, PINNED, Ask(false)) == Ok(None)
  {
    var s, q := PinningStrategy(round), Query("work", Ask(false), Some("p/a"), Some(1600));
    StrategyPins(round);
    ThreeModels(round);
    ShorterComesFirst(round);
    SelectsIff(s, THREE, q, SHORTER);
    HardMoveIff(s, THREE, SHORT, PINNED, Ask(false), SHORTER);
  }
}
