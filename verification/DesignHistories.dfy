/** Request histories in which the cached positions of a design go stale. */
module DesignHistories {
  import opened Common
  import opened Geometry
  import opened Kiwi
  import opened Translate
  import opened MailerSpecs
  import opened LayoutSolver
  import opened SolverGuarantees
  import opened DesignStore
  import opened DesignGuarantees
  import Binder
  import D = Dsl
  import V = Validators

  const SLUG := "hero-postcard-front"
  const KEY: Key := ("postcard", "6x9")
  const ID: Uuid := 1
  const CONTENT := Content(V.Other, map[])

  /** An environment without schemas. */
  function Lenient(k: Solver, palette: V.Palette): Env { Env(k, palette, (_, _) => true) }

  /** A mailer, a scaffold for no spec in particular, and a design of it. */
  function Opening(m: Mailer, spec: D.Spec): seq<Request> {
    [SetMailer(KEY, m), CreateScaffold(SLUG, Scaffold(Written(spec), "", [], None), CONTENT),
     CreateDesign(ID, SLUG, KEY, CONTENT)]
  }

  function Opened(m: Mailer, spec: D.Spec, positions: V.Positions): Store {
    Store(map[SLUG := Scaffold(Written(spec), "", [], None)],
          map[ID := Design(SLUG, KEY, CONTENT, positions, 1)], map[KEY := m])
  }

  /** The specification solves on the mailer. */
  ghost predicate Solves(env: Env, m: Mailer, spec: D.Spec) {
    && spec.WellFormed() && D.RefErrors(spec) == []
    && var o := SolveSpec(env.kiwi, ProblemOf(env, spec, m, CONTENT)); o.Answer? && o.valid
  }

  function PositionsOn(env: Env, m: Mailer, spec: D.Spec): V.Positions
    requires Solves(env, m, spec)
  {
    SolveSpec(env.kiwi, ProblemOf(env, spec, m, CONTENT)).positions
  }

  lemma ServeSnoc(env: Env, qs: seq<Request>, q: Request)
    ensures Serve(env, qs + [q]) == Handle(env, Serve(env, qs), q).0
  {
    assert (qs + [q])[..|qs|] == qs;
  }

  lemma CreatesScaffold(env: Env, s: Store, spec: D.Spec)
    requires spec.WellFormed() && D.RefErrors(spec) == [] && SLUG !in s.scaffolds
    ensures Handle(env, s, CreateScaffold(SLUG, Scaffold(Written(spec), "", [], None), CONTENT)).0
            == s.(scaffolds := s.scaffolds[SLUG := Scaffold(Written(spec), "", [], None)])
  {
    hide D.RefErrors, D.Spec.WellFormed, CheckDesign;
  }

  lemma CreatesDesign(env: Env, s: Store, m: Mailer, spec: D.Spec)
    requires Solves(env, m, spec) && env.schemaOk("", CONTENT.json)
    requires SLUG in s.scaffolds && s.scaffolds[SLUG] == Scaffold(Written(spec), "", [], None)
    requires KEY in s.mailers && s.mailers[KEY] == m && ID !in s.designs
    ensures Handle(env, s, CreateDesign(ID, SLUG, KEY, CONTENT)).0
            == s.(designs := s.designs[ID := Design(SLUG, KEY, CONTENT, PositionsOn(env, m, spec), 1)])
  {
    hide D.RefErrors, D.Spec.WellFormed, SolveSpec, ProblemOf, DocumentObjection;
  }

  /** The opening requests are all accepted. */
  lemma OpeningWorks(env: Env, m: Mailer, spec: D.Spec)
    requires Solves(env, m, spec) && env.schemaOk("", CONTENT.json)
    ensures Serve(env, Opening(m, spec)) == Opened(m, spec, PositionsOn(env, m, spec))
  {
    hide Handle, Solves, Serve, PositionsOn;
    var qs := Opening(m, spec);
    var one := Store(map[], map[], map[KEY := m]);
    var two := one.(scaffolds := map[SLUG := Scaffold(Written(spec), "", [], None)]);
    ServesNothing(env);
    SetsMailer(env, EMPTY, m);
    ServeSnoc(env, [], qs[0]);
    assert [] + [qs[0]] == [qs[0]];
    CreatesScaffold(env, one, spec) by {
      SolvesIsClean(env, m, spec);
    }
    ServeSnoc(env, [qs[0]], qs[1]);
    CreatesDesign(env, two, m, spec);
    ServeSnoc(env, [qs[0]] + [qs[1]], qs[2]);
    assert [qs[0]] + [qs[1]] + [qs[2]] == qs;
  }

  lemma ServesNothing(env: Env)
    ensures Serve(env, []) == EMPTY
  {
  }

  lemma SolvesIsClean(env: Env, m: Mailer, spec: D.Spec)
    requires Solves(env, m, spec)
    ensures spec.WellFormed() && D.RefErrors(spec) == []
  {
  }

  lemma SetsMailer(env: Env, s: Store, m: Mailer)
    ensures Handle(env, s, SetMailer(KEY, m)).0 == s.(mailers := s.mailers[KEY := m])
  {
  }

  // ---------- a scaffold update ----------

  lemma NoConstraintsNoErrors(spec: D.Spec)
    requires spec.constraints == []
    ensures D.RefErrors(spec) == []
  {
    hide D.RefErrors;
    D.NoErrorsMeansResolved(spec);
  }

  /** Without constraints everything solves. */
  lemma UnconstrainedSolves(env: Env, m: Mailer, spec: D.Spec)
    requires Complete(env.kiwi) && spec.WellFormed() && spec.constraints == []
    ensures Solves(env, m, spec)
  {
    hide D.RefErrors, Complete, Preamble, Binder.Zones, Contradictory;
    NoConstraintsNoErrors(spec);
    var p := ProblemOf(env, spec, m, CONTENT);
    NoHintsNoContradiction(p);
    FittingHintsAreAdded(env.kiwi, p);
  }

  lemma NoHintsNoContradiction(p: Problem)
    requires forall n :: n in p.intrinsics ==> p.intrinsics[n] == NO_INTRINSICS
    ensures !HintsContradict(p)
  {
  }

  lemma ReplacesDocument(env: Env, s: Store, spec: D.Spec)
    requires spec.WellFormed() && D.RefErrors(spec) == []
    requires SLUG in s.scaffolds && s.scaffolds[SLUG].compatible == [] && s.scaffolds[SLUG].strategy == None
    ensures Handle(env, s, UpdateScaffold(SLUG, Some(Written(spec)), None, None, None, CONTENT)).0
            == s.(scaffolds := s.scaffolds[SLUG := s.scaffolds[SLUG].(doc := Written(spec))])
  {
    hide D.RefErrors, D.Spec.WellFormed, CheckDesign;
  }

  /** Reachable staleness, for every solver that is complete: a scaffold saved with one set of
      elements, a design of it, and an accepted update to another set. The design is still there
      with its positions, and validating it reports other ones. */
  lemma ElementChangeHistory(k: Solver, palette: V.Palette, m: Mailer, a: D.Spec, b: D.Spec)
    requires Complete(k) && a.WellFormed() && b.WellFormed() && a.constraints == b.constraints == []
    requires a.ElementSet() != b.ElementSet()
    ensures var env := Lenient(k, palette);
            var now := Serve(env, Opening(m, a) + [UpdateScaffold(SLUG, Some(Written(b)), None, None, None, CONTENT)]);
            && Solves(env, m, a) && ID in now.designs && now.designs[ID].positions == PositionsOn(env, m, a)
            && SolvedIn(env, Serve(env, Opening(m, a)), now.designs[ID])
            && forall valid, conflicts ::
                 Handle(env, now, ValidateDesign(ID)).1 != Report(valid, now.designs[ID].positions, conflicts)
  {
    hide Handle, Serve, SolvedIn, Solves, PositionsOn, D.Spec.WellFormed, Complete, Parse, D.Spec.ElementSet;
    var env := Lenient(k, palette);
    UnconstrainedSolves(env, m, a);
    OpeningWorks(env, m, a);
    var past := Serve(env, Opening(m, a));
    var q := UpdateScaffold(SLUG, Some(Written(b)), None, None, None, CONTENT);
    ServeSnoc(env, Opening(m, a), q);
    NoConstraintsNoErrors(b);
    ReplacesDocument(env, past, b);
    var now := Serve(env, Opening(m, a) + [q]);
    OpenedIsSolved(env, m, a);
    ParseWritten(a);
    ParseWritten(b);
    forall valid, conflicts
      ensures Handle(env, now, ValidateDesign(ID)).1 != Report(valid, now.designs[ID].positions, conflicts)
    {
      StaleAfterElementChange(env, past, now, ID, valid, conflicts);
    }
  }

  lemma ParseWritten(spec: D.Spec)
    requires spec.WellFormed()
    ensures Parse(Written(spec)) == Some(spec)
  {
  }

  lemma OpenedIsSolved(env: Env, m: Mailer, spec: D.Spec)
    requires Solves(env, m, spec) && env.schemaOk("", CONTENT.json)
    ensures var s := Opened(m, spec, PositionsOn(env, m, spec)); SolvedIn(env, s, s.designs[ID])
  {
    hide SolveSpec, ProblemOf, D.RefErrors, D.Spec.WellFormed;
    ProblemKeepsSpec(env, spec, m, CONTENT);
    VerdictIsCoherent(env.kiwi, ProblemOf(env, spec, m, CONTENT));
  }

  // ---------- a mailer update ----------

  /** A square postcard with one legacy zone, an inch wide, `x` inches from the left. */
  function WithWindow(x: real): Mailer {
    MailerSpec(Postcard, None, None, 10.0, 10.0, None,
               [("window", RectIn(Some(1.0), Some(1.0), false, false, Some(x), None, Some(0.0), None))], None, [], 300)
  }

  lemma WindowRect(x: real)
    ensures var zones := Binder.Zones(WithWindow(x));
            "window" in zones && zones["window"] == Rect(Px(x, 300), 0.0, 300.0, 300.0)
  {
    hide Binder.Replay, Binder.Zones;
    var m := WithWindow(x);
    WindowWrites(x);
    var ws := Binder.Writes(m);
    Binder.SurvivingWriteResolves(ws, 2);
    ZonesAreReplayed(m);
  }

  lemma ZonesAreReplayed(m: Mailer)
    ensures Binder.Zones(m) == Binder.Replay(Binder.Writes(m))
  {
    hide Binder.Replay, Binder.Writes;
  }

  lemma WindowWrites(x: real)
    ensures var ws := Binder.Writes(WithWindow(x));
            |ws| == 3 && ws[2] == ("window", Rect(Px(x, 300), 0.0, 300.0, 300.0))
  {
    var m := WithWindow(x);
    assert Binder.RegionsWrites(Binder.Regions(m)) == [];
    assert Binder.LegacyWrites(m, m.legacyZones[..0]) == [];
  }

  /** One element that must lie in the window. */
  const FRAMED := D.Spec(["photo"], ["window"], [D.Inside(D.Required, "photo", "window")], None)

  lemma FramedIsClean()
    ensures FRAMED.WellFormed() && D.RefErrors(FRAMED) == []
  {
    hide D.RefErrors;
    D.NoErrorsMeansResolved(FRAMED);
  }

  /** A point in the window's corner. */
  function Corner(z: Rect): Layout { _ => Rect(z.x, z.y, 0.0, 0.0) }

  lemma CornerFits(p: Problem, z: Rect)
    requires p.spec == FRAMED && z.w >= 0.0 && z.h >= 0.0
    requires forall n :: n in p.intrinsics ==> p.intrinsics[n] == NO_INTRINSICS
    ensures SatisfiesRequired(Preamble(p), Corner(z))
  {
    hide AllFloors, AllSizes, AllOrigins;
    var at := Corner(z);
    OneElement(p, at);
    if p.firstZone.Some? {
      OriginsAreSoft(p.spec.elements, p.firstZone.value, at);
    }
  }

  lemma CornerIsInside(z: Rect)
    requires z.w >= 0.0 && z.h >= 0.0
    ensures SatisfiesRequired(InsideTerms("photo", z, Dsl(D.Required)), Corner(z))
  {
    hide Holds, HoldsWithin, InsideTerms;
    var ts, at := InsideTerms("photo", z, Dsl(D.Required)), Corner(z);
    InsideMeaning("photo", z, Dsl(D.Required), at, 0.0);
    forall t | t in ts ensures Holds(t, at) {
      ExactIsZeroSlack(t, at);
    }
  }

  lemma OneElement(p: Problem, at: Layout)
    requires p.spec == FRAMED && at("photo").w >= 0.0 && at("photo").h >= 0.0
    requires forall n :: n in p.intrinsics ==> p.intrinsics[n] == NO_INTRINSICS
    ensures SatisfiesRequired(AllFloors(p.spec.elements), at) && AllSizes(p.spec.elements, p.intrinsics) == []
  {
    ProperMeetsFloors("photo", at);
    assert p.spec.elements[..0] == [];
  }

  lemma FramedSolves(env: Env, x: real)
    requires Complete(env.kiwi)
    ensures Solves(env, WithWindow(x), FRAMED)
  {
    hide D.RefErrors, Complete, Preamble, Binder.Zones, Corner, Accepted, WithWindow, InsideTerms;
    FramedIsClean();
    WindowRect(x);
    var k, p := env.kiwi, ProblemOf(env, FRAMED, WithWindow(x), CONTENT);
    var z := p.zones["window"];
    CornerFits(p, z);
    CornerIsInside(z);
    EmptyAccepted(k);
    assert [] + Preamble(p) == Preamble(p);
    SatisfiableIsAdded(k, [], Preamble(p), Corner(z));
    AddAllAccepts(k, [], Preamble(p));
    var ts := InsideTerms("photo", z, Dsl(D.Required));
    SatisfiableIsAdded(k, Preamble(p), ts, Corner(z));
    FramedFold(k, p, Preamble(p));
    FramedAnswer(k, p);
  }

  lemma FramedAnswer(k: Solver, p: Problem)
    requires p.spec == FRAMED && FRAMED.WellFormed() && D.RefErrors(FRAMED) == []
    requires var pre := AddAll(k, [], Preamble(p));
             pre.verdict == Added
             && var lin := LinearFold(k, p, 1, pre.accepted); !lin.dead && lin.conflicts == []
    ensures SolveSpec(k, p).Answer? && SolveSpec(k, p).valid
  {
    hide D.RefErrors, Preamble, AddAll, LinearFold, V.CheckAll;
    var lin := LinearFold(k, p, 1, AddAll(k, [], Preamble(p)).accepted);
    var positions := Rounded(k.assign(lin.accepted), p.spec.ElementSet());
    ValidatorsCheckable(p, positions);
    V.SilentIffAllPass(p.spec.constraints, 1, SettingFor(p, positions));
  }

  lemma FramedFold(k: Solver, p: Problem, start: seq<Term>)
    requires p.spec == FRAMED && FRAMED.WellFormed() && "window" in p.zones
    requires AddAll(k, start, InsideTerms("photo", p.zones["window"], Dsl(D.Required))).verdict == Added
    ensures var lin := LinearFold(k, p, 1, start); !lin.dead && lin.conflicts == []
  {
    hide InsideTerms, AddAll;
    assert LinearFold(k, p, 0, start) == Linear(start, [], false);
  }

  /** And under a mailer update, for every sound and complete solver: the mailer's window moves,
      the design still solves there, but it keeps its positions, which no validation reports. */
  lemma MailerChangeHistory(k: Solver, palette: V.Palette)
    requires Sound(k) && Complete(k)
    ensures var env := Lenient(k, palette);
            var now := Serve(env, Opening(WithWindow(1.0), FRAMED) + [SetMailer(KEY, WithWindow(5.0))]);
            && Solves(env, WithWindow(1.0), FRAMED) && Solves(env, WithWindow(5.0), FRAMED)
            && ID in now.designs && now.designs[ID].positions == PositionsOn(env, WithWindow(1.0), FRAMED)
            && forall valid, conflicts ::
                 Handle(env, now, ValidateDesign(ID)).1 != Report(valid, now.designs[ID].positions, conflicts)
  {
    hide Handle, Serve, SolvedIn, Solves, PositionsOn, D.Spec.WellFormed, Complete, Sound, Parse,
      WithWindow, Binder.Zones;
    var env, m := Lenient(k, palette), WithWindow(1.0);
    FramedSolves(env, 1.0);
    FramedSolves(env, 5.0);
    OpeningWorks(env, m, FRAMED);
    OpenedIsSolved(env, m, FRAMED);
    var past := Serve(env, Opening(m, FRAMED));
    ServeSnoc(env, Opening(m, FRAMED), SetMailer(KEY, WithWindow(5.0)));
    SetsMailer(env, past, WithWindow(5.0));
    var now := Serve(env, Opening(m, FRAMED) + [SetMailer(KEY, WithWindow(5.0))]);
    FramedIsClean();
    ParseWritten(FRAMED);
    WindowRect(1.0);
    WindowRect(5.0);
    forall valid, conflicts
      ensures Handle(env, now, ValidateDesign(ID)).1 != Report(valid, now.designs[ID].positions, conflicts)
    {
      StaleAfterZoneMove(env, past, now, ID, 0, valid, conflicts);
    }
  }
}
