/** Audience specs: create, revise, preview and sign as atomic requests on a revision forest. */
module SpecForest {
  import opened Common

  type Uuid = nat

  datatype Status = Draft | Preview | Signed | Superseded | Retired

  datatype Row = Row(partner: Uuid, version: nat, parent: Option<Uuid>, status: Status)

  type Specs = map<Uuid, Row>

  /** `newId` is the id the request draws; `ok` is whether the evaluator let it through. */
  datatype Request =
    | CreateSpec(newId: Uuid, partner: Uuid)
    | ReviseSpec(id: Uuid, newId: Uuid)
    | PreviewSpec(id: Uuid, ok: bool)
    | SignSpec(id: Uuid, ok: bool)

  datatype Reply = Accepted | NotFound | NotRevisable(status: Status) | DuplicateKey | Refused

  predicate Active(s: Status) { s == Draft || s == Preview }

  predicate Revisable(s: Status) { Active(s) || s == Signed }

  function Handle(specs: Specs, q: Request): (Specs, Reply) {
    match q
    case CreateSpec(newId, partner) =>
      if newId in specs then (specs, DuplicateKey) else (specs[newId := Row(partner, 1, None, Draft)], Accepted)
    case ReviseSpec(id, newId) =>
      if id !in specs then (specs, NotFound)
      else
        var parent := specs[id];
        if !Revisable(parent.status) then (specs, NotRevisable(parent.status))
        else if newId in specs then (specs, DuplicateKey)
        else
          var inserted := specs[newId := Row(parent.partner, parent.version + 1, Some(id), Draft)];
          (if Active(parent.status) then inserted[id := parent.(status := Superseded)] else inserted, Accepted)
    case PreviewSpec(id, ok) =>
      if id !in specs then (specs, NotFound)
      else if !ok then (specs, Refused)
      else if specs[id].status == Draft then (specs[id := specs[id].(status := Preview)], Accepted)
      else (specs, Accepted)
    case SignSpec(id, ok) =>
      if id !in specs then (specs, NotFound)
      else if !ok then (specs, Refused)
      else (specs[id := specs[id].(status := Signed)], Accepted)
  }

  class SpecStore {
    var specs: Specs

    constructor ()
      ensures specs == map[]
    {
      specs := map[];
    }

    method Create(newId: Uuid, partner: Uuid) returns (reply: Reply)
      modifies this
      ensures (specs, reply) == Handle(old(specs), CreateSpec(newId, partner))
    {
      if newId in specs {
        return DuplicateKey;
      }
      specs := specs[newId := Row(partner, 1, None, Draft)];
      reply := Accepted;
    }

    method Revise(id: Uuid, newId: Uuid) returns (reply: Reply)
      modifies this
      ensures (specs, reply) == Handle(old(specs), ReviseSpec(id, newId))
    {
      if id !in specs {
        return NotFound;
      }
      var parent := specs[id];
      if !Revisable(parent.status) {
        return NotRevisable(parent.status);
      }
      if newId in specs {
        return DuplicateKey;
      }
      specs := specs[newId := Row(parent.partner, parent.version + 1, Some(id), Draft)];
      if Active(specs[id].status) {
        specs := specs[id := specs[id].(status := Superseded)];
      }
      reply := Accepted;
    }

    method PreviewOf(id: Uuid, ok: bool) returns (reply: Reply)
      modifies this
      ensures (specs, reply) == Handle(old(specs), PreviewSpec(id, ok))
    {
      if id !in specs {
        return NotFound;
      }
      if !ok {
        return Refused;
      }
      if specs[id].status == Draft {
        specs := specs[id := specs[id].(status := Preview)];
      }
      reply := Accepted;
    }

    method Sign(id: Uuid, ok: bool) returns (reply: Reply)
      modifies this
      ensures (specs, reply) == Handle(old(specs), SignSpec(id, ok))
    {
      if id !in specs {
        return NotFound;
      }
      if !ok {
        return Refused;
      }
      specs := specs[id := specs[id].(status := Signed)];
      reply := Accepted;
    }
  }

  function Serve(specs: Specs, qs: seq<Request>): Specs {
    if qs == [] then specs else Handle(Serve(specs, qs[..|qs| - 1]), qs[|qs| - 1]).0
  }

  // ---------- the forest ----------

  ghost predicate ChildOf(specs: Specs, c: Uuid, p: Uuid) { c in specs && specs[c].parent == Some(p) }

  /** Parents exist, share the partner and are one version older; roots are version 1; a spec
      that was revised is neither draft nor preview. */
  ghost predicate Forest(specs: Specs) {
    && (forall c :: c in specs && specs[c].parent.None? ==> specs[c].version == 1)
    && forall c, p :: ChildOf(specs, c, p) ==>
         p in specs && specs[c].partner == specs[p].partner && specs[c].version == specs[p].version + 1
         && !Active(specs[p].status)
  }

  lemma HandleKeepsForest(specs: Specs, q: Request)
    requires Forest(specs)
    ensures Forest(Handle(specs, q).0)
  {
    var after := Handle(specs, q).0;
    forall c, p | ChildOf(after, c, p)
      ensures p in after && after[c].partner == after[p].partner && after[c].version == after[p].version + 1
              && !Active(after[p].status)
    {
      assert ChildOf(specs, c, p) || (q.ReviseSpec? && c == q.newId && p == q.id);
    }
  }

  lemma {:induction false} ServeKeepsForest(specs: Specs, qs: seq<Request>)
    requires Forest(specs)
    ensures Forest(Serve(specs, qs))
  {
    if qs != [] {
      ServeKeepsForest(specs, qs[..|qs| - 1]);
      HandleKeepsForest(Serve(specs, qs[..|qs| - 1]), qs[|qs| - 1]);
    }
  }

  /** The chain of ancestors from `id` up to its root. */
  function Lineage(specs: Specs, id: Uuid): seq<Uuid>
    requires Forest(specs) && id in specs
    decreases specs[id].version
  {
    if specs[id].parent.None? then [id]
    else
      assert ChildOf(specs, id, specs[id].parent.value);
      [id] + Lineage(specs, specs[id].parent.value)
  }

  function RootOf(specs: Specs, id: Uuid): Uuid
    requires Forest(specs) && id in specs
  {
    var chain := Lineage(specs, id);
    LineageShape(specs, id);
    chain[|chain| - 1]
  }

  /** The version is the depth in the tree plus one, and the partner is that of the root. */
  lemma {:induction false} LineageShape(specs: Specs, id: Uuid)
    requires Forest(specs) && id in specs
    ensures var chain := Lineage(specs, id);
            && |chain| == specs[id].version
            && chain[|chain| - 1] in specs && specs[chain[|chain| - 1]].parent == None
            && specs[chain[|chain| - 1]].partner == specs[id].partner
    decreases specs[id].version
  {
    if specs[id].parent.Some? {
      assert ChildOf(specs, id, specs[id].parent.value);
      LineageShape(specs, specs[id].parent.value);
    }
  }

  // ---------- when a tree is a single path ----------

  ghost predicate NoForks(specs: Specs) {
    forall a, b, p :: ChildOf(specs, a, p) && ChildOf(specs, b, p) ==> a == b
  }

  ghost predicate HasChild(specs: Specs, p: Uuid) { exists c :: ChildOf(specs, c, p) }

  /** The request is an accepted revision of a spec that already has a child. */
  ghost predicate Forks(specs: Specs, q: Request) {
    q.ReviseSpec? && Handle(specs, q).1 == Accepted && HasChild(specs, q.id)
  }

  /** Only a revision of a signed spec can fork a path, and exactly when it was revised before. */
  lemma ForkIffSecondRevision(specs: Specs, q: Request)
    requires Forest(specs) && NoForks(specs)
    ensures NoForks(Handle(specs, q).0) <==> !Forks(specs, q)
    ensures Forks(specs, q) ==> specs[q.id].status == Signed
  {
    var after := Handle(specs, q).0;
    forall c, p | ChildOf(after, c, p)
      ensures ChildOf(specs, c, p) || (q.ReviseSpec? && Handle(specs, q).1 == Accepted
                                      && c == q.newId && p == q.id && c !in specs)
    {
    }
    forall c, p | ChildOf(specs, c, p) ensures ChildOf(after, c, p) {
    }
    if Forks(specs, q) {
      var c :| ChildOf(specs, c, q.id);
      assert ChildOf(after, c, q.id) && ChildOf(after, q.newId, q.id) && c != q.newId;
    }
  }

  lemma ForksStay(specs: Specs, q: Request)
    requires Forest(specs) && !NoForks(specs)
    ensures !NoForks(Handle(specs, q).0)
  {
    var a, b, p :| ChildOf(specs, a, p) && ChildOf(specs, b, p) && a != b;
    var after := Handle(specs, q).0;
    assert ChildOf(after, a, p) && ChildOf(after, b, p);
  }

  /** No request of the run was an accepted revision of an already revised spec. */
  ghost predicate NeverForked(specs: Specs, qs: seq<Request>) {
    qs == [] || (NeverForked(specs, qs[..|qs| - 1]) && !Forks(Serve(specs, qs[..|qs| - 1]), qs[|qs| - 1]))
  }

  /** Over whole runs: the trees stay single paths exactly when no spec was revised twice. */
  lemma {:induction false} PathsIffNeverForked(specs: Specs, qs: seq<Request>)
    requires Forest(specs) && NoForks(specs)
    ensures NoForks(Serve(specs, qs)) <==> NeverForked(specs, qs)
  {
    hide Handle, NoForks, Forks;
    if qs != [] {
      var before := Serve(specs, qs[..|qs| - 1]);
      PathsIffNeverForked(specs, qs[..|qs| - 1]);
      ServeKeepsForest(specs, qs[..|qs| - 1]);
      if NoForks(before) {
        ForkIffSecondRevision(before, qs[|qs| - 1]);
      } else {
        ForksStay(before, qs[|qs| - 1]);
      }
    }
  }

  /** No spec was ever revised while signed. */
  ghost predicate NeverRevisedSigned(specs: Specs, qs: seq<Request>) {
    qs == [] ||
    (var before, q := Serve(specs, qs[..|qs| - 1]), qs[|qs| - 1];
     NeverRevisedSigned(specs, qs[..|qs| - 1])
     && !(q.ReviseSpec? && q.id in before && before[q.id].status == Signed))
  }

  lemma {:induction false} PathsWithoutSignedRevisions(specs: Specs, qs: seq<Request>)
    requires Forest(specs) && NoForks(specs) && NeverRevisedSigned(specs, qs)
    ensures NoForks(Serve(specs, qs))
  {
    hide Handle, NoForks;
    if qs != [] {
      var before, q := Serve(specs, qs[..|qs| - 1]), qs[|qs| - 1];
      PathsWithoutSignedRevisions(specs, qs[..|qs| - 1]);
      ServeKeepsForest(specs, qs[..|qs| - 1]);
      ForkIffSecondRevision(before, q);
      if Forks(before, q) {
        AcceptedRevisionExists(before, q);
      }
    }
  }

  lemma AcceptedRevisionExists(specs: Specs, q: Request)
    requires q.ReviseSpec? && Handle(specs, q).1 == Accepted
    ensures q.id in specs
  {
  }

  /** Without forks a tree has one spec per version. */
  lemma {:induction false} OneSpecPerVersion(specs: Specs, a: Uuid, b: Uuid)
    requires Forest(specs) && NoForks(specs) && a in specs && b in specs
    requires RootOf(specs, a) == RootOf(specs, b) && specs[a].version == specs[b].version
    ensures a == b
    decreases specs[a].version
  {
    LineageShape(specs, a);
    LineageShape(specs, b);
    if specs[a].parent.Some? && specs[b].parent.Some? {
      var pa, pb := specs[a].parent.value, specs[b].parent.value;
      assert ChildOf(specs, a, pa) && ChildOf(specs, b, pb);
      RootOfParent(specs, a);
      RootOfParent(specs, b);
      OneSpecPerVersion(specs, pa, pb);
    }
  }

  lemma RootOfParent(specs: Specs, id: Uuid)
    requires Forest(specs) && id in specs && specs[id].parent.Some?
    ensures specs[id].parent.value in specs && RootOf(specs, id) == RootOf(specs, specs[id].parent.value)
  {
    assert ChildOf(specs, id, specs[id].parent.value);
    LineageShape(specs, specs[id].parent.value);
  }

  /** An ancestor at a smaller version. */
  lemma {:induction false} AncestorAt(specs: Specs, id: Uuid, v: nat) returns (a: Uuid)
    requires Forest(specs) && id in specs && 1 <= v < specs[id].version
    ensures a in specs && specs[a].version == v && RootOf(specs, a) == RootOf(specs, id) && HasChild(specs, a)
    decreases specs[id].version
  {
    LineageShape(specs, id);
    var p := specs[id].parent.value;
    assert ChildOf(specs, id, p);
    RootOfParent(specs, id);
    if specs[p].version == v {
      a := p;
    } else {
      a := AncestorAt(specs, p, v);
    }
  }

  /** On a single path only the tip can be draft or preview: two active specs of one tree are
      the same spec. */
  lemma OneActivePerTree(specs: Specs, a: Uuid, b: Uuid)
    requires Forest(specs) && NoForks(specs) && a in specs && b in specs
    requires RootOf(specs, a) == RootOf(specs, b) && Active(specs[a].status) && Active(specs[b].status)
    ensures a == b
  {
    if specs[a].version < specs[b].version {
      ActiveIsNotBelow(specs, a, b);
    } else if specs[b].version < specs[a].version {
      ActiveIsNotBelow(specs, b, a);
    } else {
      OneSpecPerVersion(specs, a, b);
    }
  }

  lemma ActiveIsNotBelow(specs: Specs, a: Uuid, b: Uuid)
    requires Forest(specs) && NoForks(specs) && a in specs && b in specs && specs[a].version < specs[b].version
    requires RootOf(specs, a) == RootOf(specs, b)
    ensures !Active(specs[a].status)
  {
    LineageShape(specs, a);
    var c := AncestorAt(specs, b, specs[a].version);
    OneSpecPerVersion(specs, c, a);
  }

  /** All of it, for every run of requests from an empty store. */
  lemma EveryRunKeepsTheForest(qs: seq<Request>, a: Uuid, b: Uuid)
    ensures Forest(Serve(map[], qs))
    ensures NeverRevisedSigned(map[], qs) && a in Serve(map[], qs) && b in Serve(map[], qs) ==>
              var specs := Serve(map[], qs);
              NoForks(specs)
              && (RootOf(specs, a) == RootOf(specs, b) && Active(specs[a].status) && Active(specs[b].status) ==> a == b)
  {
    hide Serve, NoForks;
    NothingForks();
    ServeKeepsForest(map[], qs);
    var specs := Serve(map[], qs);
    if NeverRevisedSigned(map[], qs) && a in specs && b in specs {
      PathsWithoutSignedRevisions(map[], qs);
      if RootOf(specs, a) == RootOf(specs, b) && Active(specs[a].status) && Active(specs[b].status) {
        OneActivePerTree(specs, a, b);
      }
    }
  }

  lemma NothingForks()
    ensures NoForks(map[]) && Forest(map[])
  {
  }

  /** Signing does not look at the status: a superseded spec signed late can be revised again,
      and then one chain carries two drafts, although each revision demotes an open parent. */
  lemma SignedSpecsFork(p: Uuid, a: Uuid, b: Uuid, partner: Uuid)
    requires p != a && p != b && a != b
    ensures var specs := Serve(map[], [CreateSpec(p, partner), ReviseSpec(p, a), SignSpec(p, true), ReviseSpec(p, b)]);
            a in specs && b in specs && specs[a].status == specs[b].status == Draft
            && specs[a].parent == specs[b].parent == Some(p)
  {
    var q1, q2, q3, q4 := CreateSpec(p, partner), ReviseSpec(p, a), SignSpec(p, true), ReviseSpec(p, b);
    var s1 := Handle(map[], q1).0;
    var s2 := Handle(s1, q2).0;
    var s3 := Handle(s2, q3).0;
    ServeOne(map[], [], q1);
    ServeOne(map[], [q1], q2);
    ServeOne(map[], [q1, q2], q3);
    ServeOne(map[], [q1, q2, q3], q4);
    assert [] + [q1] == [q1] && [q1] + [q2] == [q1, q2] && [q1, q2] + [q3] == [q1, q2, q3];
    assert [q1, q2, q3] + [q4] == [q1, q2, q3, q4];
    assert Serve(map[], [q1, q2, q3, q4]) == Handle(s3, q4).0;
  }

  lemma ServeOne(specs: Specs, qs: seq<Request>, q: Request)
    ensures Serve(specs, qs + [q]) == Handle(Serve(specs, qs), q).0
  {
    assert (qs + [q])[..|qs|] == qs;
  }
}
