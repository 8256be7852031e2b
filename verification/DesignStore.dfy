/** Scaffolds, designs and mailer specs, with the solver output cached on each design. */
module DesignStore {
  import opened Common
  import opened Geometry
  import opened Kiwi
  import opened MailerSpecs
  import opened LayoutSolver
  import Binder
  import D = Dsl
  import V = Validators

  type Uuid = nat

  /** A mailer's category and variant. */
  type Key = (string, string)

  type Mailer = m: MailerSpec | m.dpi > 0
    witness MailerSpec(Postcard, None, None, 0.0, 0.0, None, [], None, [], 300)

  /** A stored constraint specification: junk the model parser refuses, or a written one. */
  datatype Document = Junk | Written(spec: D.Spec)

  /** `ConstraintSpecification.model_validate`. */
  function Parse(doc: Document): (r: Option<D.Spec>)
    ensures r.Some? ==> r.value.WellFormed()
  {
    if doc.Written? && doc.spec.WellFormed() then Some(doc.spec) else None
  }

  /** A content configuration, with the size hints it carries per element. */
  datatype Content = Content(json: V.Json, sizes: map<string, Intrinsics>)

  function IntrinsicsOf(spec: D.Spec, content: Content): map<string, Intrinsics> {
    map n | n in spec.ElementSet() :: if n in content.sizes then content.sizes[n] else NO_INTRINSICS
  }

  type Schema = string

  /** What the tools call out to. */
  datatype Env = Env(kiwi: Solver, palette: V.Palette, schemaOk: (Schema, V.Json) -> bool)

  function ProblemOf(env: Env, spec: D.Spec, mailer: Mailer, content: Content): Problem {
    var zones := Binder.Zones(mailer);
    Problem(spec, zones, if "canvas" in zones then Some(zones["canvas"]) else None,
            IntrinsicsOf(spec, content), content.json, env.palette)
  }

  type Mailers = map<Key, Mailer>

  /** `run_solve`. */
  datatype Run = BadDocument | NoSuchMailer | Ran(outcome: Outcome)

  function RunSolve(env: Env, mailers: Mailers, doc: Document, key: Key, content: Content): Run {
    var spec := Parse(doc);
    if spec.None? then BadDocument
    else if key !in mailers then NoSuchMailer
    else Ran(SolveSpec(env.kiwi, ProblemOf(env, spec.value, mailers[key], content)))
  }

  /** A scaffold is identified by its slug, which is unique and never changes. */
  datatype Scaffold = Scaffold(doc: Document, schema: Schema, compatible: seq<Key>, strategy: Option<string>)

  const STRATEGIES := {"hero", "proof", "offer", "trust"}

  predicate StrategyOk(strategy: Option<string>) { strategy.Some? ==> strategy.value in STRATEGIES }

  datatype Design = Design(scaffold: string, key: Key, content: Content, positions: V.Positions, version: nat)

  datatype Store = Store(scaffolds: map<string, Scaffold>, designs: map<Uuid, Design>, mailers: Mailers)

  const EMPTY := Store(map[], map[], map[])

  datatype Request =
    | SetMailer(key: Key, mailer: Mailer)
    | CreateScaffold(slug: string, scaffold: Scaffold, placeholder: Content)
    | UpdateScaffold(slug: string, doc: Option<Document>, schema: Option<Schema>, compatible: Option<seq<Key>>,
                     strategy: Option<string>, placeholder: Content)
    | CreateDesign(newId: Uuid, scaffoldSlug: string, designKey: Key, content: Content)
    | UpdateDesignContent(id: Uuid, newContent: Content)
    | ValidateDesign(id: Uuid)

  datatype Reply =
    | Saved
    | DuplicateKey
    | NoScaffold
    | NoDesign
    | InvalidStrategy
    | InvalidDocument
    | BadReferences(errors: seq<D.RefError>)
    | UnknownMailer(key: Key)
    | DoesNotSolve(conflicts: seq<V.Conflict>)
    | SchemaViolation
    | Raised
    | Report(valid: bool, positions: V.Positions, conflicts: seq<V.Conflict>)

  // ---------- scaffold checks ----------

  /** First objection of the solver over the compatible specs. */
  function Objection(env: Env, mailers: Mailers, spec: D.Spec, keys: seq<Key>, sample: Content): Option<Reply>
    requires spec.WellFormed()
  {
    if keys == [] then None
    else if keys[0] !in mailers then Some(UnknownMailer(keys[0]))
    else
      var o := SolveSpec(env.kiwi, ProblemOf(env, spec, mailers[keys[0]], sample));
      if o.Escaped? then Some(Raised)
      else if !o.valid then Some(DoesNotSolve(o.conflicts))
      else Objection(env, mailers, spec, keys[1..], sample)
  }

  function DocumentObjection(env: Env, mailers: Mailers, doc: Document, keys: seq<Key>, sample: Content)
    : Option<Reply> {
    var spec := Parse(doc);
    if spec.None? then Some(InvalidDocument)
    else
      var errs := D.RefErrors(spec.value);
      if errs != [] then Some(BadReferences(errs)) else Objection(env, mailers, spec.value, keys, sample)
  }

  function PutScaffold(s: Store, slug: string, scaffold: Scaffold): Store {
    s.(scaffolds := s.scaffolds[slug := scaffold])
  }

  function Patched(was: Scaffold, q: Request): Scaffold
    requires q.UpdateScaffold?
  {
    Scaffold(q.doc.GetOr(was.doc), q.schema.GetOr(was.schema), q.compatible.GetOr(was.compatible),
             q.strategy.OrElse(was.strategy))
  }

  /** `compatible_specs or existing.compatible_specs`. */
  function KeysToCheck(was: Scaffold, given: Option<seq<Key>>): seq<Key> {
    if given.Some? && given.value != [] then given.value else was.compatible
  }

  // ---------- design writes ----------

  /** Schema check and solve of a design about to be saved. */
  datatype Checked = Fine(positions: V.Positions) | Stopped(reply: Reply)

  function CheckDesign(env: Env, s: Store, slug: string, key: Key, content: Content): Checked {
    if slug !in s.scaffolds then Stopped(NoScaffold)
    else
      var scaffold := s.scaffolds[slug];
      if !env.schemaOk(scaffold.schema, content.json) then Stopped(SchemaViolation)
      else
        match RunSolve(env, s.mailers, scaffold.doc, key, content)
        case BadDocument => Stopped(InvalidDocument)
        case NoSuchMailer => Stopped(UnknownMailer(key))
        case Ran(Escaped(_)) => Stopped(Raised)
        case Ran(Answer(valid, positions, conflicts)) =>
          if valid then Fine(positions) else Stopped(DoesNotSolve(conflicts))
  }

  function ReportOf(env: Env, s: Store, id: Uuid): Reply {
    if id !in s.designs then NoDesign
    else
      var d := s.designs[id];
      if d.scaffold !in s.scaffolds then NoScaffold
      else
        match RunSolve(env, s.mailers, s.scaffolds[d.scaffold].doc, d.key, d.content)
        case BadDocument => InvalidDocument
        case NoSuchMailer => UnknownMailer(d.key)
        case Ran(Escaped(_)) => Raised
        case Ran(Answer(valid, positions, conflicts)) => Report(valid, positions, conflicts)
  }

  function Handle(env: Env, s: Store, q: Request): (Store, Reply) {
    match q
    case SetMailer(key, mailer) => (s.(mailers := s.mailers[key := mailer]), Saved)
    case CreateScaffold(slug, scaffold, sample) =>
      var bad := DocumentObjection(env, s.mailers, scaffold.doc, scaffold.compatible, sample);
      if !StrategyOk(scaffold.strategy) then (s, InvalidStrategy)
      else if bad.Some? then (s, bad.value)
      else if slug in s.scaffolds then (s, DuplicateKey)
      else (PutScaffold(s, slug, scaffold), Saved)
    case UpdateScaffold(slug, doc, schema, compatible, strategy, sample) =>
      if !StrategyOk(strategy) then (s, InvalidStrategy)
      else if slug !in s.scaffolds then (s, NoScaffold)
      else
        var was := s.scaffolds[slug];
        var bad := if doc.None? then None
                   else DocumentObjection(env, s.mailers, doc.value, KeysToCheck(was, compatible), sample);
        if bad.Some? then (s, bad.value) else (PutScaffold(s, slug, Patched(was, q)), Saved)
    case CreateDesign(newId, slug, key, content) =>
      var c := CheckDesign(env, s, slug, key, content);
      if c.Stopped? then (s, c.reply)
      else if newId in s.designs then (s, DuplicateKey)
      else (s.(designs := s.designs[newId := Design(slug, key, content, c.positions, 1)]), Saved)
    case UpdateDesignContent(id, content) =>
      if id !in s.designs then (s, NoDesign)
      else
        var d := s.designs[id];
        var c := CheckDesign(env, s, d.scaffold, d.key, content);
        if c.Stopped? then (s, c.reply)
        else (s.(designs := s.designs[id := Design(d.scaffold, d.key, content, c.positions, d.version + 1)]), Saved)
    case ValidateDesign(id) => (s, ReportOf(env, s, id))
  }

  function Serve(env: Env, qs: seq<Request>): Store {
    if qs == [] then EMPTY else Handle(env, Serve(env, qs[..|qs| - 1]), qs[|qs| - 1]).0
  }

  // ---------- the tools ----------

  class Tools {
    const env: Env
    var store: Store

    constructor (e: Env)
      ensures env == e && store == EMPTY
    {
      env, store := e, EMPTY;
    }

    method SolveFor(spec: D.Spec, mailer: Mailer, content: Content) returns (o: Outcome)
      requires spec.WellFormed()
      ensures o == SolveSpec(env.kiwi, ProblemOf(env, spec, mailer, content))
    {
      hide SolveSpec, Binder.Zones, D.Spec.WellFormed;
      var zones, regions := Binder.BindSpecZones(mailer);
      var first := if "canvas" in zones then Some(zones["canvas"]) else None;
      o := Solve(env.kiwi, Problem(spec, zones, first, IntrinsicsOf(spec, content), content.json, env.palette));
    }

    method SolveStored(doc: Document, key: Key, content: Content) returns (r: Run)
      ensures r == RunSolve(env, store.mailers, doc, key, content)
    {
      hide SolveSpec, ProblemOf, Parse;
      var spec := Parse(doc);
      if spec.None? {
        return BadDocument;
      }
      if key !in store.mailers {
        return NoSuchMailer;
      }
      var o := SolveFor(spec.value, store.mailers[key], content);
      r := Ran(o);
    }

    method CheckCompatible(spec: D.Spec, keys: seq<Key>, sample: Content) returns (bad: Option<Reply>)
      requires spec.WellFormed()
      ensures bad == Objection(env, store.mailers, spec, keys, sample)
    {
      hide SolveSpec, ProblemOf, D.Spec.WellFormed;
      for i := 0 to |keys|
        invariant Objection(env, store.mailers, spec, keys, sample)
                  == Objection(env, store.mailers, spec, keys[i..], sample)
      {
        assert keys[i..][0] == keys[i] && keys[i..][1..] == keys[i + 1..];
        if keys[i] !in store.mailers {
          return Some(UnknownMailer(keys[i]));
        }
        var o := SolveFor(spec, store.mailers[keys[i]], sample);
        if o.Escaped? {
          return Some(Raised);
        }
        if !o.valid {
          return Some(DoesNotSolve(o.conflicts));
        }
      }
      bad := None;
    }

    method CheckDocument(doc: Document, keys: seq<Key>, sample: Content) returns (bad: Option<Reply>)
      ensures bad == DocumentObjection(env, store.mailers, doc, keys, sample)
    {
      hide Objection, D.RefErrors, Parse;
      var spec := Parse(doc);
      if spec.None? {
        return Some(InvalidDocument);
      }
      var errs := D.ValidateReferences(spec.value);
      if errs != [] {
        return Some(BadReferences(errs));
      }
      bad := CheckCompatible(spec.value, keys, sample);
    }

    method CreateScaffold(slug: string, scaffold: Scaffold, sample: Content) returns (reply: Reply)
      modifies this
      ensures (store, reply) == Handle(env, old(store), Request.CreateScaffold(slug, scaffold, sample))
    {
      hide DocumentObjection;
      if !StrategyOk(scaffold.strategy) {
        return InvalidStrategy;
      }
      var bad := CheckDocument(scaffold.doc, scaffold.compatible, sample);
      if bad.Some? {
        return bad.value;
      }
      if slug in store.scaffolds {
        return DuplicateKey;
      }
      store := store.(scaffolds := store.scaffolds[slug := scaffold]);
      reply := Saved;
    }

    method UpdateScaffold(slug: string, doc: Option<Document>, schema: Option<Schema>, compatible: Option<seq<Key>>,
                          strategy: Option<string>, sample: Content) returns (reply: Reply)
      modifies this
      ensures (store, reply) ==
              Handle(env, old(store), Request.UpdateScaffold(slug, doc, schema, compatible, strategy, sample))
    {
      hide DocumentObjection;
      if !StrategyOk(strategy) {
        return InvalidStrategy;
      }
      if slug !in store.scaffolds {
        return NoScaffold;
      }
      var updated := store.scaffolds[slug];
      if doc.Some? {
        var bad := CheckDocument(doc.value, KeysToCheck(updated, compatible), sample);
        if bad.Some? {
          return bad.value;
        }
        updated := updated.(doc := doc.value);
      }
      if schema.Some? {
        updated := updated.(schema := schema.value);
      }
      if compatible.Some? {
        updated := updated.(compatible := compatible.value);
      }
      if strategy.Some? {
        updated := updated.(strategy := strategy);
      }
      store := store.(scaffolds := store.scaffolds[slug := updated]);
      reply := Saved;
    }

    method Check(slug: string, key: Key, content: Content) returns (c: Checked)
      ensures c == CheckDesign(env, store, slug, key, content)
    {
      hide RunSolve;
      if slug !in store.scaffolds {
        return Stopped(NoScaffold);
      }
      var scaffold := store.scaffolds[slug];
      if !env.schemaOk(scaffold.schema, content.json) {
        return Stopped(SchemaViolation);
      }
      var r := SolveStored(scaffold.doc, key, content);
      match r {
        case BadDocument => c := Stopped(InvalidDocument);
        case NoSuchMailer => c := Stopped(UnknownMailer(key));
        case Ran(o) =>
          c := if o.Escaped? then Stopped(Raised)
               else if o.valid then Fine(o.positions) else Stopped(DoesNotSolve(o.conflicts));
      }
    }

    method CreateDesign(newId: Uuid, slug: string, key: Key, content: Content) returns (reply: Reply)
      modifies this
      ensures (store, reply) == Handle(env, old(store), Request.CreateDesign(newId, slug, key, content))
    {
      hide CheckDesign;
      var c := Check(slug, key, content);
      if c.Stopped? {
        return c.reply;
      }
      if newId in store.designs {
        return DuplicateKey;
      }
      store := store.(designs := store.designs[newId := Design(slug, key, content, c.positions, 1)]);
      reply := Saved;
    }

    method UpdateDesignContent(id: Uuid, content: Content) returns (reply: Reply)
      modifies this
      ensures (store, reply) == Handle(env, old(store), Request.UpdateDesignContent(id, content))
    {
      hide CheckDesign;
      if id !in store.designs {
        return NoDesign;
      }
      var d := store.designs[id];
      var c := Check(d.scaffold, d.key, content);
      if c.Stopped? {
        return c.reply;
      }
      store := store.(designs :=
        store.designs[id := d.(content := content, positions := c.positions, version := d.version + 1)]);
      reply := Saved;
    }

    method ValidateDesign(id: Uuid) returns (reply: Reply)
      ensures (store, reply) == Handle(env, store, Request.ValidateDesign(id))
    {
      hide RunSolve;
      if id !in store.designs {
        return NoDesign;
      }
      var d := store.designs[id];
      if d.scaffold !in store.scaffolds {
        return NoScaffold;
      }
      var r := SolveStored(store.scaffolds[d.scaffold].doc, d.key, d.content);
      match r {
        case BadDocument => reply := InvalidDocument;
        case NoSuchMailer => reply := UnknownMailer(d.key);
        case Ran(o) => reply := if o.Escaped? then Raised else Report(o.valid, o.positions, o.conflicts);
      }
    }
  }
}
