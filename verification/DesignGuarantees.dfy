/** What the cached positions of a design are worth, over whole request histories. */
module DesignGuarantees {
  import opened Common
  import opened Geometry
  import opened Kiwi
  import opened Translate
  import opened MailerSpecs
  import opened LayoutSolver
  import opened DesignStore
  import opened SolverGuarantees
  import Binder
  import D = Dsl
  import V = Validators

  // ---------- saved scaffolds ----------

  /** The document solves on a mailer with this content. */
  predicate SolvesOn(env: Env, mailers: Mailers, spec: D.Spec, key: Key, sample: Content)
    requires spec.WellFormed()
  {
    key in mailers
    && var o := SolveSpec(env.kiwi, ProblemOf(env, spec, mailers[key], sample)); o.Answer? && o.valid
  }

  lemma HeadAndTail(keys: seq<Key>, fine: Key -> bool)
    requires keys != []
    ensures (forall key :: key in keys ==> fine(key)) <==> fine(keys[0]) && forall key :: key in keys[1..] ==> fine(key)
  {
    assert forall key :: key in keys <==> key == keys[0] || key in keys[1..];
  }

  /** There is no objection exactly when every key is known and its solve is a valid answer. */
  lemma {:induction false} ObjectionExact(env: Env, mailers: Mailers, spec: D.Spec, keys: seq<Key>, sample: Content)
    requires spec.WellFormed()
    ensures Objection(env, mailers, spec, keys, sample).None? <==>
            forall key :: key in keys ==> SolvesOn(env, mailers, spec, key, sample)
  {
    hide SolveSpec, ProblemOf, D.Spec.WellFormed;
    if keys != [] {
      ObjectionExact(env, mailers, spec, keys[1..], sample);
      assert Objection(env, mailers, spec, keys, sample).None? <==>
             SolvesOn(env, mailers, spec, keys[0], sample) && Objection(env, mailers, spec, keys[1..], sample).None?;
      HeadAndTail(keys, key => SolvesOn(env, mailers, spec, key, sample));
    }
  }

  /** A scaffold is saved exactly when its strategy is known, its slug free, its document well
      formed with all references resolved, and it solves on every compatible spec. */
  lemma SavedScaffoldSolvesEverywhere(env: Env, s: Store, slug: string, scaffold: Scaffold, sample: Content)
    ensures Handle(env, s, CreateScaffold(slug, scaffold, sample)).1 == Saved <==>
            && StrategyOk(scaffold.strategy) && slug !in s.scaffolds && Parse(scaffold.doc).Some?
            && D.ReferencesResolve(Parse(scaffold.doc).value)
            && forall key :: key in scaffold.compatible ==>
                 SolvesOn(env, s.mailers, Parse(scaffold.doc).value, key, sample)
  {
    hide D.RefErrors, D.ReferencesResolve, Parse, SolvesOn, D.Spec.WellFormed;
    ObjectionsAreNotSaved(env, s.mailers, scaffold.doc, scaffold.compatible, sample);
    if Parse(scaffold.doc).Some? {
      D.NoErrorsMeansResolved(Parse(scaffold.doc).value);
      ObjectionExact(env, s.mailers, Parse(scaffold.doc).value, scaffold.compatible, sample);
    }
  }

  /** An update is saved exactly when its strategy is known, the slug exists and, if it brings a
      document, that is well formed, its references resolve, and it solves on the specs it brings,
      or on the scaffold's own when it brings none. */
  lemma SavedUpdateSolvesEverywhere(env: Env, s: Store, q: Request)
    requires q.UpdateScaffold?
    ensures Handle(env, s, q).1 == Saved <==>
            && StrategyOk(q.strategy) && q.slug in s.scaffolds
            && (q.doc.Some? ==>
                  && Parse(q.doc.value).Some? && D.ReferencesResolve(Parse(q.doc.value).value)
                  && forall key :: key in (if q.compatible.Some? && |q.compatible.value| > 0 then q.compatible.value
                                           else s.scaffolds[q.slug].compatible) ==>
                       SolvesOn(env, s.mailers, Parse(q.doc.value).value, key, q.placeholder))
  {
    hide D.RefErrors, D.ReferencesResolve, Parse, SolvesOn, D.Spec.WellFormed, Objection;
    if q.slug in s.scaffolds && q.doc.Some? {
      var keys := KeysToCheck(s.scaffolds[q.slug], q.compatible);
      ObjectionsAreNotSaved(env, s.mailers, q.doc.value, keys, q.placeholder);
      if Parse(q.doc.value).Some? {
        D.NoErrorsMeansResolved(Parse(q.doc.value).value);
        ObjectionExact(env, s.mailers, Parse(q.doc.value).value, keys, q.placeholder);
      }
    }
  }

  lemma {:induction false} ObjectionIsNotSaved(env: Env, mailers: Mailers, spec: D.Spec, keys: seq<Key>,
                                           sample: Content)
    requires spec.WellFormed()
    ensures Objection(env, mailers, spec, keys, sample) != Some(Saved)
  {
    hide SolveSpec, ProblemOf, D.Spec.WellFormed;
    if keys != [] {
      ObjectionIsNotSaved(env, mailers, spec, keys[1..], sample);
    }
  }

  lemma ObjectionsAreNotSaved(env: Env, mailers: Mailers, doc: Document, keys: seq<Key>, sample: Content)
    ensures DocumentObjection(env, mailers, doc, keys, sample) != Some(Saved)
  {
    hide Objection, D.RefErrors, Parse, D.Spec.WellFormed;
    if Parse(doc).Some? {
      ObjectionIsNotSaved(env, mailers, Parse(doc).value, keys, sample);
    }
  }

  // ---------- cached positions ----------

  /** The request writes the design's row. */
  predicate WritesDesign(env: Env, s: Store, q: Request, id: Uuid) {
    Handle(env, s, q).1 == Saved
    && ((q.CreateDesign? && q.newId == id) || (q.UpdateDesignContent? && q.id == id))
  }

  /** The positions are the valid solve of the design's content against this store. */
  predicate SolvedIn(env: Env, s: Store, d: Design) {
    d.scaffold in s.scaffolds && d.key in s.mailers
    && env.schemaOk(s.scaffolds[d.scaffold].schema, d.content.json)
    && Parse(s.scaffolds[d.scaffold].doc).Some?
    && SolveSpec(env.kiwi, ProblemOf(env, Parse(s.scaffolds[d.scaffold].doc).value, s.mailers[d.key], d.content))
       == Answer(true, d.positions, [])
  }

  /** A valid answer carries no conflict. */
  lemma ValidAnswer(k: Solver, p: Problem)
    requires p.spec.WellFormed() && SolveSpec(k, p).Answer? && SolveSpec(k, p).valid
    ensures SolveSpec(k, p).conflicts == []
  {
    hide SolveSpec;
    VerdictIsCoherent(k, p);
  }

  lemma CheckedMeansSolved(env: Env, s: Store, slug: string, key: Key, content: Content, version: nat)
    requires CheckDesign(env, s, slug, key, content).Fine?
    ensures SolvedIn(env, s, Design(slug, key, content, CheckDesign(env, s, slug, key, content).positions, version))
  {
    hide SolveSpec, ProblemOf, Parse;
    ValidAnswer(env.kiwi, ProblemOf(env, Parse(s.scaffolds[slug].doc).value, s.mailers[key], content)) by {
      ProblemKeepsSpec(env, Parse(s.scaffolds[slug].doc).value, s.mailers[key], content);
    }
  }

  lemma ProblemKeepsSpec(env: Env, spec: D.Spec, mailer: Mailer, content: Content)
    ensures ProblemOf(env, spec, mailer, content).spec == spec
  {
  }

  /** One request: a design row either stays or becomes the valid solve of its new content
      against the store the request found. */
  lemma OneRequest(env: Env, s: Store, q: Request, id: Uuid)
    requires id in Handle(env, s, q).0.designs
    ensures var d := Handle(env, s, q).0.designs[id];
            if WritesDesign(env, s, q, id) then SolvedIn(env, s, d) else id in s.designs && d == s.designs[id]
  {
    hide DocumentObjection, SolvedIn, RunSolve;
    if WritesDesign(env, s, q, id) {
      if q.CreateDesign? {
        CheckedMeansSolved(env, s, q.scaffoldSlug, q.designKey, q.content, 1);
      } else {
        var d := s.designs[id];
        CheckedMeansSolved(env, s, d.scaffold, d.key, q.newContent, d.version + 1);
      }
    }
  }

  /** In every reachable store each design has a last write, its row is as that write left it,
      and its positions are the valid solve of its content against the scaffold and the mailer
      spec that write found. */
  lemma {:induction false} CachedIsTheLastSolve(env: Env, qs: seq<Request>, id: Uuid) returns (k: nat)
    requires id in Serve(env, qs).designs
    ensures k < |qs| && WritesDesign(env, Serve(env, qs[..k]), qs[k], id)
    ensures forall j :: k < j < |qs| ==> !WritesDesign(env, Serve(env, qs[..j]), qs[j], id)
    ensures SolvedIn(env, Serve(env, qs[..k]), Serve(env, qs).designs[id])
  {
    hide Handle, SolvedIn, WritesDesign;
    var n := |qs| - 1;
    var before, q := qs[..n], qs[n];
    OneRequest(env, Serve(env, before), q, id);
    if WritesDesign(env, Serve(env, before), q, id) {
      k := n;
    } else {
      k := CachedIsTheLastSolve(env, before, id);
      assert forall j :: 0 <= j <= n ==> before[..j] == qs[..j];
    }
  }

  /** Requests that may change what the design is solved against. */
  predicate Touches(q: Request, d: Design) {
    (q.UpdateScaffold? && q.slug == d.scaffold && q.doc.Some?) || (q.SetMailer? && q.key == d.key)
  }

  predicate SameBasis(s: Store, t: Store, d: Design) {
    d.scaffold in s.scaffolds && d.key in s.mailers && d.scaffold in t.scaffolds && d.key in t.mailers
    && s.scaffolds[d.scaffold].doc == t.scaffolds[d.scaffold].doc && s.mailers[d.key] == t.mailers[d.key]
  }

  lemma UntouchedKeepsBasis(env: Env, s: Store, q: Request, d: Design)
    requires d.scaffold in s.scaffolds && d.key in s.mailers && !Touches(q, d)
    ensures SameBasis(s, Handle(env, s, q).0, d)
  {
    hide CheckDesign, DocumentObjection, RunSolve;
  }

  lemma {:induction false} QuietRunKeepsBasis(env: Env, qs: seq<Request>, k: nat, n: nat, d: Design)
    requires k <= n <= |qs| && SameBasis(Serve(env, qs[..k]), Serve(env, qs[..k]), d)
    requires forall j :: k <= j < n ==> !Touches(qs[j], d)
    ensures SameBasis(Serve(env, qs[..k]), Serve(env, qs[..n]), d)
    decreases n
  {
    hide Handle, Touches;
    if k < n {
      QuietRunKeepsBasis(env, qs, k, n - 1, d);
      UntouchedKeepsBasis(env, Serve(env, qs[..n - 1]), qs[n - 1], d);
      assert qs[..n][..n - 1] == qs[..n - 1] && qs[..n][n - 1] == qs[n - 1];
    }
  }

  /** If since a design's last write nobody supplied a new constraint specification for its
      scaffold or replaced its mailer spec, validating it reports exactly the cached positions,
      whatever else happened (schema, name and other designs included). */
  lemma ValidateReturnsTheCache(env: Env, qs: seq<Request>, id: Uuid, k: nat)
    requires id in Serve(env, qs).designs && k < |qs|
    requires WritesDesign(env, Serve(env, qs[..k]), qs[k], id)
    requires forall j :: k < j < |qs| ==> !WritesDesign(env, Serve(env, qs[..j]), qs[j], id)
    requires forall j :: k < j < |qs| ==> !Touches(qs[j], Serve(env, qs).designs[id])
    ensures Handle(env, Serve(env, qs), ValidateDesign(id)).1 == Report(true, Serve(env, qs).designs[id].positions, [])
  {
    hide SolveSpec, ProblemOf, Parse, CheckDesign, DocumentObjection, Serve;
    var now := Serve(env, qs);
    var d := now.designs[id];
    var last := CachedIsTheLastSolve(env, qs, id);
    assert last == k;
    var past := Serve(env, qs[..k]);
    forall j | k <= j < |qs| ensures !Touches(qs[j], d) {
      if j == k {
        assert !qs[k].UpdateScaffold? && !qs[k].SetMailer?;
      }
    }
    QuietRunKeepsBasis(env, qs, k, |qs|, d);
    assert qs[..|qs|] == qs;
  }

  /** The cache does go stale: under a document with other elements no validation ever reports
      the cached positions, although the row is still there. */
  lemma StaleAfterElementChange(env: Env, past: Store, now: Store, id: Uuid, valid: bool, conflicts: seq<V.Conflict>)
    requires id in now.designs && SolvedIn(env, past, now.designs[id])
    requires var d := now.designs[id];
             d.scaffold in now.scaffolds && Parse(now.scaffolds[d.scaffold].doc).Some?
             && Parse(now.scaffolds[d.scaffold].doc).value.ElementSet()
                != Parse(past.scaffolds[d.scaffold].doc).value.ElementSet()
    ensures Handle(env, now, ValidateDesign(id)).1 != Report(valid, now.designs[id].positions, conflicts)
  {
    hide SolveSpec, ProblemOf, Parse, CheckDesign, DocumentObjection;
    var d := now.designs[id];
    var was, new' := Parse(past.scaffolds[d.scaffold].doc).value, Parse(now.scaffolds[d.scaffold].doc).value;
    ProblemKeepsSpec(env, was, past.mailers[d.key], d.content);
    AnswerKeys(env.kiwi, ProblemOf(env, was, past.mailers[d.key], d.content));
    if d.key in now.mailers {
      ProblemKeepsSpec(env, new', now.mailers[d.key], d.content);
      var p := ProblemOf(env, new', now.mailers[d.key], d.content);
      if SolveSpec(env.kiwi, p).Answer? {
        AnswerKeys(env.kiwi, p);
      }
    }
  }

  /** The two zones share no point, with the rounding to spare. */
  predicate Apart(a: Rect, b: Rect) {
    || a.Right() + 0.00015 < b.x || b.Right() + 0.00015 < a.x
    || a.Bottom() + 0.00015 < b.y || b.Bottom() + 0.00015 < a.y
  }

  lemma NotInsideBoth(c: D.Constraint, at: Layout, a: Zones, b: Zones)
    requires c.Inside? && c.WellFormed() && Reading(c, at, a, ROUNDING) && Reading(c, at, b, ROUNDING)
    requires at(c.element).w >= 0.0 && at(c.element).h >= 0.0
    ensures c.zone in a && c.zone in b && !Apart(a[c.zone], b[c.zone])
  {
  }

  /** The same happens under mailer updates: once the zone an element is required inside is gone,
      or has moved away from where it was, no validation reports the cached positions. */
  lemma StaleAfterZoneMove(env: Env, past: Store, now: Store, id: Uuid, i: nat, valid: bool, conflicts: seq<V.Conflict>)
    requires Sound(env.kiwi) && id in now.designs && SolvedIn(env, past, now.designs[id])
    requires SameDocument(past, now, now.designs[id])
    requires var d := now.designs[id];
             var cs := Parse(past.scaffolds[d.scaffold].doc).value.constraints;
             && i < |cs| && cs[i].Inside? && cs[i].strength == D.Required
             && (d.key in now.mailers && cs[i].zone in Binder.Zones(now.mailers[d.key])
                 && cs[i].zone in Binder.Zones(past.mailers[d.key]) ==>
                   Apart(Binder.Zones(past.mailers[d.key])[cs[i].zone], Binder.Zones(now.mailers[d.key])[cs[i].zone]))
    ensures Handle(env, now, ValidateDesign(id)).1 != Report(valid, now.designs[id].positions, conflicts)
  {
    hide SolveSpec, ProblemOf, Parse, CheckDesign, DocumentObjection, Sound, Apart, Reading, Binder.Zones, SolvedIn;
    if Handle(env, now, ValidateDesign(id)).1 == Report(valid, now.designs[id].positions, conflicts) {
      var d := now.designs[id];
      var spec := SolvedFacts(env, past, d);
      ReportFacts(env, now, id, spec, valid, conflicts);
      InsideReads(env, spec, past.mailers[d.key], d, i);
      InsideReads(env, spec, now.mailers[d.key], d, i);
      NotInsideBoth(spec.constraints[i], LayoutOf(d.positions),
                    Binder.Zones(past.mailers[d.key]), Binder.Zones(now.mailers[d.key]));
    }
  }

  predicate SameDocument(s: Store, t: Store, d: Design) {
    d.scaffold in s.scaffolds && d.scaffold in t.scaffolds && s.scaffolds[d.scaffold].doc == t.scaffolds[d.scaffold].doc
  }

  lemma SolvedFacts(env: Env, s: Store, d: Design) returns (spec: D.Spec)
    requires SolvedIn(env, s, d)
    ensures d.key in s.mailers && d.scaffold in s.scaffolds && Parse(s.scaffolds[d.scaffold].doc) == Some(spec)
    ensures spec.WellFormed() && HasPositions(env, spec, s.mailers[d.key], d)
  {
    hide SolveSpec, ProblemOf, Parse;
    spec := Parse(s.scaffolds[d.scaffold].doc).value;
    ProblemKeepsSpec(env, spec, s.mailers[d.key], d.content);
    AnswerKeys(env.kiwi, ProblemOf(env, spec, s.mailers[d.key], d.content));
  }

  /** Solving the design's content on this mailer gives exactly its stored positions. */
  ghost predicate HasPositions(env: Env, spec: D.Spec, mailer: Mailer, d: Design)
    requires spec.WellFormed()
  {
    var o := SolveSpec(env.kiwi, ProblemOf(env, spec, mailer, d.content));
    o.Answer? && o.positions == d.positions && d.positions != map[]
  }

  lemma ReportFacts(env: Env, s: Store, id: Uuid, spec: D.Spec, valid: bool, conflicts: seq<V.Conflict>)
    requires id in s.designs && s.designs[id].scaffold in s.scaffolds && s.designs[id].positions != map[]
    requires Parse(s.scaffolds[s.designs[id].scaffold].doc) == Some(spec) && spec.WellFormed()
    requires Handle(env, s, ValidateDesign(id)).1 == Report(valid, s.designs[id].positions, conflicts)
    ensures s.designs[id].key in s.mailers && HasPositions(env, spec, s.mailers[s.designs[id].key], s.designs[id])
  {
    hide SolveSpec, ProblemOf, Parse, CheckDesign, DocumentObjection;
  }

  lemma InsideReads(env: Env, spec: D.Spec, mailer: Mailer, d: Design, i: nat)
    requires Sound(env.kiwi) && spec.WellFormed() && HasPositions(env, spec, mailer, d)
    requires i < |spec.constraints| && spec.constraints[i].Inside? && spec.constraints[i].strength == D.Required
    ensures spec.constraints[i].WellFormed()
    ensures Reading(spec.constraints[i], LayoutOf(d.positions), Binder.Zones(mailer), ROUNDING)
    ensures var r := LayoutOf(d.positions)(spec.constraints[i].element); r.w >= 0.0 && r.h >= 0.0
  {
    hide Sound, Reading, Binder.Zones, LinearFold, Preamble, V.CheckAll, D.RefErrors, D.Constraint.WellFormed;
    var p := ProblemOf(env, spec, mailer, d.content);
    RequiredHoldsOnPositions(env.kiwi, p, i);
    PositionedFacts(env.kiwi, p);
    D.NoErrorsMeansResolved(spec);
    assert D.ElementRefs(spec.constraints[i])[0] == spec.constraints[i].element;
    HintsHoldOnPositions(env.kiwi, p, spec.constraints[i].element);
  }

  /** Positions are missing altogether or cover exactly the elements; valid ones cover them. */
  lemma AnswerKeys(k: Solver, p: Problem)
    requires p.spec.WellFormed() && SolveSpec(k, p).Answer?
    ensures var o := SolveSpec(k, p);
            (o.positions != map[] ==> o.positions.Keys == p.spec.ElementSet())
            && (o.valid ==> o.positions != map[] && o.positions.Keys == p.spec.ElementSet())
  {
    hide LinearFold, V.CheckAll, Preamble, D.RefErrors, D.Constraint.WellFormed;
    VerdictIsCoherent(k, p);
  }

  /** End to end: with a sound solver, stored positions satisfy the required constraints of the
      document they were solved against within the rounding bound, and pass its validators. */
  lemma StoredPositionsSatisfy(env: Env, s: Store, d: Design)
    requires Sound(env.kiwi) && SolvedIn(env, s, d)
    ensures var p := ProblemOf(env, Parse(s.scaffolds[d.scaffold].doc).value, s.mailers[d.key], d.content);
            RequiredHold(p, d.positions) && ValidatorsPass(p, d.positions)
  {
    hide SolveSpec, Parse, RequiredHold, ValidatorsPass, Binder.Zones, Sound;
    var spec := Parse(s.scaffolds[d.scaffold].doc).value;
    var p := ProblemOf(env, spec, s.mailers[d.key], d.content);
    AnswerKeys(env.kiwi, p);
    ValidMeansSatisfied(env.kiwi, p);
  }

  lemma InsideOnSheet(c: D.Constraint, positions: V.Positions, zones: Zones, mailer: Mailer)
    requires c.Inside? && c.WellFormed() && c.zone in zones && Reading(c, LayoutOf(positions), zones, ROUNDING)
    requires Within(zones[c.zone], mailer.Canvas())
    ensures var r, sheet := LayoutOf(positions)(c.element), mailer.Canvas();
            r.x >= -0.0001 && r.y >= -0.0001 && r.Right() <= sheet.w + 0.0001 && r.Bottom() <= sheet.h + 0.0001
  {
    hide LayoutOf, Px;
    PxAdd(0.0, 0.0, mailer.dpi);
  }

  lemma RequiredReads(env: Env, spec: D.Spec, mailer: Mailer, content: Content, positions: V.Positions, i: nat)
    requires spec.WellFormed() && RequiredHold(ProblemOf(env, spec, mailer, content), positions)
    requires i < |spec.constraints| && spec.constraints[i].Linear() && spec.constraints[i].strength == D.Required
    ensures Reading(spec.constraints[i], LayoutOf(positions), Binder.Zones(mailer), ROUNDING)
  {
    hide Reading, Binder.Zones, LayoutOf, D.Constraint.WellFormed;
  }

  lemma LayoutAt(positions: V.Positions, e: string)
    requires e in positions
    ensures LayoutOf(positions)(e) == positions[e]
  {
  }

  /** The element an inside constraint names has a stored position. */
  lemma StoredElement(env: Env, s: Store, d: Design, i: nat)
    requires SolvedIn(env, s, d)
    requires i < |Parse(s.scaffolds[d.scaffold].doc).value.constraints|
             && Parse(s.scaffolds[d.scaffold].doc).value.constraints[i].Inside?
    ensures var c := Parse(s.scaffolds[d.scaffold].doc).value.constraints[i];
            c.WellFormed() && c.Linear() && c.element in d.positions
  {
    hide Parse, LinearFold, Preamble, V.CheckAll, D.RefErrors, D.Constraint.WellFormed, Binder.Zones;
    var spec := Parse(s.scaffolds[d.scaffold].doc).value;
    var p := ProblemOf(env, spec, s.mailers[d.key], d.content);
    AnswerKeys(env.kiwi, p);
    D.NoErrorsMeansResolved(spec);
    assert D.ElementRefs(spec.constraints[i])[0] == spec.constraints[i].element;
  }

  /** An element required inside a zone that lies on the canvas is stored on the canvas, up to
      0.0001 pixels. */
  lemma StoredOnTheSheet(env: Env, s: Store, d: Design, i: nat)
    requires Sound(env.kiwi) && SolvedIn(env, s, d)
    requires var cs := Parse(s.scaffolds[d.scaffold].doc).value.constraints;
             i < |cs| && cs[i].Inside? && cs[i].strength == D.Required
             && cs[i].zone in Binder.Zones(s.mailers[d.key])
             && Within(Binder.Zones(s.mailers[d.key])[cs[i].zone], s.mailers[d.key].Canvas())
    ensures var e := Parse(s.scaffolds[d.scaffold].doc).value.constraints[i].element;
            e in d.positions
            && var r, sheet := d.positions[e], s.mailers[d.key].Canvas();
               r.x >= -0.0001 && r.y >= -0.0001 && r.Right() <= sheet.w + 0.0001 && r.Bottom() <= sheet.h + 0.0001
  {
    hide Parse, Binder.Zones, Sound, Reading, LayoutOf, SolveSpec, ProblemOf, V.Passes, V.Checkable, Within,
      D.Constraint.WellFormed, D.Spec.WellFormed, MailerSpec.Canvas;
    var spec, mailer := Parse(s.scaffolds[d.scaffold].doc).value, s.mailers[d.key];
    StoredElement(env, s, d, i);
    StoredPositionsSatisfy(env, s, d);
    RequiredReads(env, spec, mailer, d.content, d.positions, i);
    InsideOnSheet(spec.constraints[i], d.positions, Binder.Zones(mailer), mailer);
    LayoutAt(d.positions, spec.constraints[i].element);
  }
}
