/** Acceptance rules of a scaffold brief, evaluated on resolved positions. */
module Briefs {
  import opened Common

  datatype Box = Box(w: Option<real>, h: Option<real>) {
    function Area(): real { w.GetOr(0.0) * h.GetOr(0.0) }

    function Height(): real { h.GetOr(0.0) }
  }

  datatype Rule =
    | AreaDominance(element: string, minRatio: real)
    | SizeHierarchy(larger: string, smaller: string, minRatio: real)
    | SlotPresent(slot: string)
    | MinSlotCount(category: string, min: nat)
  {
    /** What the rule models let through. */
    predicate WellFormed() {
      (AreaDominance? || SizeHierarchy? ==> minRatio > 0.0) && (MinSlotCount? ==> category != "" && min >= 1)
    }
  }

  /** A dictionary in its iteration order. */
  type Boxes = seq<(string, Box)>

  predicate Distinct(names: seq<string>) { forall i, j :: 0 <= i < j < |names| ==> names[i] != names[j] }

  function Names(boxes: Boxes): seq<string> { seq(|boxes|, i requires 0 <= i < |boxes| => boxes[i].0) }

  function Find(boxes: Boxes, name: string): (r: Option<Box>)
    ensures r.Some? ==> (name, r.value) in boxes
    ensures r.None? <==> name !in Names(boxes)
  {
    if boxes == [] then None
    else
      assert Names(boxes) == Names(boxes[..|boxes| - 1]) + [boxes[|boxes| - 1].0];
      if boxes[|boxes| - 1].0 == name then Some(boxes[|boxes| - 1].1)
      else Find(boxes[..|boxes| - 1], name)
  }

  datatype Cause =
    | Unplaced
    | OutweighedBy(competitor: string)
    | ZeroHeight
    | TooSmallRatio
    | NoSlot
    | TooFewSlots(found: nat)

  datatype Failure = Failure(rule: Rule, cause: Cause)

  function Outweighed(rule: Rule, target: Box, boxes: Boxes): seq<Failure>
    requires rule.AreaDominance?
  {
    if boxes == [] then []
    else
      var (name, box) := boxes[|boxes| - 1];
      Outweighed(rule, target, boxes[..|boxes| - 1])
      + (if name != rule.element && box.Area() > 0.0 && target.Area() / box.Area() < rule.minRatio
         then [Failure(rule, OutweighedBy(name))] else [])
  }

  function PrefixCount(slots: seq<string>, category: string): nat {
    if slots == [] then 0
    else PrefixCount(slots[..|slots| - 1], category) + (if category <= slots[|slots| - 1] then 1 else 0)
  }

  function FailuresOf(rule: Rule, boxes: Boxes, slots: seq<string>): seq<Failure> {
    match rule
    case AreaDominance(element, _) =>
      var target := Find(boxes, element);
      if target.None? then [Failure(rule, Unplaced)] else Outweighed(rule, target.value, boxes)
    case SizeHierarchy(larger, smaller, minRatio) =>
      var l, s := Find(boxes, larger), Find(boxes, smaller);
      if l.None? || s.None? then [Failure(rule, Unplaced)]
      else if s.value.Height() <= 0.0 then [Failure(rule, ZeroHeight)]
      else if l.value.Height() / s.value.Height() < minRatio then [Failure(rule, TooSmallRatio)]
      else []
    case SlotPresent(slot) => if slot in slots then [] else [Failure(rule, NoSlot)]
    case MinSlotCount(category, min) =>
      var found := PrefixCount(slots, category);
      if found < min then [Failure(rule, TooFewSlots(found))] else []
  }

  function AllFailures(rules: seq<Rule>, boxes: Boxes, slots: seq<string>): seq<Failure> {
    if rules == [] then []
    else AllFailures(rules[..|rules| - 1], boxes, slots) + FailuresOf(rules[|rules| - 1], boxes, slots)
  }

  method CompareWithOthers(failures: seq<Failure>, rule: Rule, target: Box, boxes: Boxes) returns (out: seq<Failure>)
    requires rule.AreaDominance?
    ensures out == failures + Outweighed(rule, target, boxes)
  {
    hide Box.Area;
    out := failures;
    for j := 0 to |boxes|
      invariant out == failures + Outweighed(rule, target, boxes[..j])
    {
      assert boxes[..j + 1][..j] == boxes[..j];
      var (name, box) := boxes[j];
      if name != rule.element {
        var area := box.Area();
        if area > 0.0 && target.Area() / area < rule.minRatio {
          out := out + [Failure(rule, OutweighedBy(name))];
        }
      }
    }
    assert boxes[..|boxes|] == boxes;
  }

  /** `evaluate_rules`: one pass over the rules, appending every failure. */
  method EvaluateRules(rules: seq<Rule>, boxes: Boxes, slots: seq<string>) returns (failures: seq<Failure>)
    requires forall i :: 0 <= i < |rules| ==> rules[i].WellFormed()
    requires Distinct(Names(boxes)) && Distinct(slots)
    ensures failures == AllFailures(rules, boxes, slots)
    ensures failures == [] <==> forall i :: 0 <= i < |rules| ==> Holds(rules[i], boxes, slots)
  {
    hide Box.Height, Find, Holds, Outweighed, Distinct, PrefixCount;
    failures := [];
    for i := 0 to |rules|
      invariant failures == AllFailures(rules[..i], boxes, slots)
    {
      ghost var before := failures;
      var rule := rules[i];
      assert rules[..i + 1][..i] == rules[..i];
      match rule {
        case AreaDominance(element, minRatio) =>
          var target := Find(boxes, element);
          if target.None? {
            failures := failures + [Failure(rule, Unplaced)];
          } else {
            failures := CompareWithOthers(failures, rule, target.value, boxes);
          }
        case SizeHierarchy(larger, smaller, minRatio) =>
          var l, s := Find(boxes, larger), Find(boxes, smaller);
          if l.None? || s.None? {
            failures := failures + [Failure(rule, Unplaced)];
          } else if s.value.Height() <= 0.0 {
            failures := failures + [Failure(rule, ZeroHeight)];
          } else if l.value.Height() / s.value.Height() < minRatio {
            failures := failures + [Failure(rule, TooSmallRatio)];
          }
        case SlotPresent(slot) =>
          if slot !in slots {
            failures := failures + [Failure(rule, NoSlot)];
          }
        case MinSlotCount(category, min) =>
          var found := PrefixCount(slots, category);
          if found < min {
            failures := failures + [Failure(rule, TooFewSlots(found))];
          }
      }
      assert failures == before + FailuresOf(rule, boxes, slots);
    }
    assert rules[..|rules|] == rules;
    SilentIffAllHold(rules, boxes, slots);
  }

  // ---------- meaning ----------

  function Product(a: real, b: real): real { a * b }

  /** What a rule asks, without divisions, loops or counters. */
  ghost predicate Holds(rule: Rule, boxes: Boxes, slots: seq<string>) {
    match rule
    case AreaDominance(element, minRatio) =>
      exists target :: (element, target) in boxes
        && forall i :: 0 <= i < |boxes| && boxes[i].0 != element && boxes[i].1.Area() > 0.0 ==>
             target.Area() >= Product(minRatio, boxes[i].1.Area())
    case SizeHierarchy(larger, smaller, minRatio) =>
      exists l, s :: (larger, l) in boxes && (smaller, s) in boxes
        && s.Height() > 0.0 && l.Height() >= Product(minRatio, s.Height())
    case SlotPresent(slot) => slot in slots
    case MinSlotCount(category, min) => |Matching(slots, category)| >= min
  }

  lemma RatioBelow(a: real, b: real, r: real)
    requires b > 0.0
    ensures a / b < r <==> a < Product(r, b)
  {
    QuotientCompares(a, b, r);
  }

  /** Keys are unique, so a lookup and membership agree. */
  lemma {:induction false} FindUnique(boxes: Boxes, name: string, box: Box)
    requires Distinct(Names(boxes)) && (name, box) in boxes
    ensures Find(boxes, name) == Some(box)
  {
    var n := |boxes| - 1;
    var i :| 0 <= i <= n && boxes[i] == (name, box);
    if i < n {
      assert Names(boxes)[i] != Names(boxes)[n];
      assert Names(boxes[..n]) == Names(boxes)[..n];
      assert boxes[..n][i] == (name, box);
      FindUnique(boxes[..n], name, box);
    }
  }

  lemma {:induction false} OutweighedExact(rule: Rule, target: Box, boxes: Boxes)
    requires rule.AreaDominance?
    ensures Outweighed(rule, target, boxes) == [] <==>
            forall i :: 0 <= i < |boxes| && boxes[i].0 != rule.element && boxes[i].1.Area() > 0.0 ==>
              target.Area() >= Product(rule.minRatio, boxes[i].1.Area())
  {
    hide Product, Box.Area;
    if boxes != [] {
      var n := |boxes| - 1;
      OutweighedExact(rule, target, boxes[..n]);
      if boxes[n].1.Area() > 0.0 {
        RatioBelow(target.Area(), boxes[n].1.Area(), rule.minRatio);
      }
    }
  }

  ghost function Matching(slots: seq<string>, category: string): set<string> { set n | n in slots && category <= n }

  lemma MatchingSnoc(front: seq<string>, last: string, category: string)
    requires last !in front
    ensures var before, after := Matching(front, category), Matching(front + [last], category);
            last !in before && after == before + (if category <= last then {last} else {})
  {
  }

  lemma {:induction false} PrefixCountIsCardinality(slots: seq<string>, category: string)
    requires Distinct(slots)
    ensures PrefixCount(slots, category) == |Matching(slots, category)|
  {
    hide Matching;
    if slots == [] {
      NothingMatches(category);
    } else {
      var front, last := slots[..|slots| - 1], slots[|slots| - 1];
      PrefixCountIsCardinality(front, category);
      assert slots == front + [last] && last !in front;
      MatchingSnoc(front, last, category);
    }
  }

  lemma NothingMatches(category: string)
    ensures Matching([], category) == {}
  {
  }

  lemma HierarchyHolds(rule: Rule, boxes: Boxes, slots: seq<string>)
    requires rule.SizeHierarchy? && Distinct(Names(boxes))
    ensures FailuresOf(rule, boxes, slots) == [] <==> Holds(rule, boxes, slots)
  {
    hide Product, Box.Height, Find;
    var l, s := Find(boxes, rule.larger), Find(boxes, rule.smaller);
    if l.Some? && s.Some? && s.value.Height() > 0.0 {
      RatioBelow(l.value.Height(), s.value.Height(), rule.minRatio);
    }
    if Holds(rule, boxes, slots) {
      var l', s' :| (rule.larger, l') in boxes && (rule.smaller, s') in boxes
        && s'.Height() > 0.0 && l'.Height() >= Product(rule.minRatio, s'.Height());
      FindUnique(boxes, rule.larger, l');
      FindUnique(boxes, rule.smaller, s');
    }
  }

  lemma DominanceHolds(rule: Rule, boxes: Boxes, slots: seq<string>)
    requires rule.AreaDominance? && Distinct(Names(boxes))
    ensures FailuresOf(rule, boxes, slots) == [] <==> Holds(rule, boxes, slots)
  {
    hide Product, Box.Area, Find;
    var target := Find(boxes, rule.element);
    if target.Some? {
      OutweighedExact(rule, target.value, boxes);
    }
    if Holds(rule, boxes, slots) {
      var box :| (rule.element, box) in boxes
        && forall i :: 0 <= i < |boxes| && boxes[i].0 != rule.element && boxes[i].1.Area() > 0.0 ==>
             box.Area() >= Product(rule.minRatio, boxes[i].1.Area());
      FindUnique(boxes, rule.element, box);
    }
  }

  /** One rule is silent exactly when what it asks holds. */
  lemma RuleExact(rule: Rule, boxes: Boxes, slots: seq<string>)
    requires Distinct(Names(boxes)) && Distinct(slots)
    ensures FailuresOf(rule, boxes, slots) == [] <==> Holds(rule, boxes, slots)
  {
    match rule
    case AreaDominance(_, _) => DominanceHolds(rule, boxes, slots);
    case SizeHierarchy(_, _, _) => HierarchyHolds(rule, boxes, slots);
    case SlotPresent(_) =>
    case MinSlotCount(category, _) => PrefixCountIsCardinality(slots, category);
  }

  /** The evaluation is empty exactly when every rule holds. */
  lemma {:induction false} SilentIffAllHold(rules: seq<Rule>, boxes: Boxes, slots: seq<string>)
    requires Distinct(Names(boxes)) && Distinct(slots)
    ensures AllFailures(rules, boxes, slots) == [] <==> forall i :: 0 <= i < |rules| ==> Holds(rules[i], boxes, slots)
  {
    hide Holds, FailuresOf;
    if rules != [] {
      SilentIffAllHold(rules[..|rules| - 1], boxes, slots);
      RuleExact(rules[|rules| - 1], boxes, slots);
    }
  }

  // ---------- what passing rules imply together ----------

  lemma ProductsOrder(r: real, q: real, a: real, b: real)
    requires r >= 0.0 && a >= Product(r, b) && b >= q
    ensures a >= Product(r, q)
  {
    assert r * (b - q) >= 0.0;
  }

  lemma ScaleCancels(p: real, a: real)
    requires a > 0.0 && a >= Product(p, a)
    ensures p <= 1.0
  {
    RatioBelow(a, a, p);
    assert a / a == 1.0;
  }

  /** Two elements of positive area may both dominate only when their ratios multiply to at
      most one; so never both with ratios above one. */
  lemma NoTwoDominate(a: Rule, b: Rule, boxes: Boxes, slots: seq<string>)
    requires a.AreaDominance? && b.AreaDominance? && a.WellFormed() && b.WellFormed() && a.element != b.element
    requires Distinct(Names(boxes)) && Holds(a, boxes, slots) && Holds(b, boxes, slots)
    requires forall i :: 0 <= i < |boxes| && boxes[i].0 in {a.element, b.element} ==> boxes[i].1.Area() > 0.0
    ensures Product(a.minRatio, b.minRatio) <= 1.0 && !(a.minRatio > 1.0 && b.minRatio > 1.0)
  {
    hide Box.Area, Product;
    var x :| (a.element, x) in boxes
      && forall i :: 0 <= i < |boxes| && boxes[i].0 != a.element && boxes[i].1.Area() > 0.0 ==>
           x.Area() >= Product(a.minRatio, boxes[i].1.Area());
    var y :| (b.element, y) in boxes
      && forall i :: 0 <= i < |boxes| && boxes[i].0 != b.element && boxes[i].1.Area() > 0.0 ==>
           y.Area() >= Product(b.minRatio, boxes[i].1.Area());
    var i :| 0 <= i < |boxes| && boxes[i] == (a.element, x);
    var j :| 0 <= j < |boxes| && boxes[j] == (b.element, y);
    assert x.Area() >= Product(a.minRatio, boxes[j].1.Area());
    assert y.Area() >= Product(b.minRatio, boxes[i].1.Area());
    ProductsOrder(a.minRatio, Product(b.minRatio, x.Area()), x.Area(), y.Area());
    ProductAssociates(a.minRatio, b.minRatio, x.Area());
    ScaleCancels(Product(a.minRatio, b.minRatio), x.Area());
    AboveOne(a.minRatio, b.minRatio);
  }

  lemma ProductAssociates(r: real, q: real, a: real)
    ensures Product(r, Product(q, a)) == Product(Product(r, q), a)
  {
  }

  lemma AboveOne(r: real, q: real)
    ensures r > 1.0 && q > 1.0 ==> Product(r, q) > 1.0
  {
    if q > 1.0 {
      RatioBelow(q, q, r);
      assert q / q == 1.0;
    }
  }

  /** Hierarchy rules each of which starts where the one before ends. */
  predicate Ladder(rules: seq<Rule>) {
    && (forall i :: 0 <= i < |rules| ==> rules[i].SizeHierarchy? && rules[i].WellFormed())
    && forall i :: 0 <= i < |rules| - 1 ==> rules[i].smaller == rules[i + 1].larger
  }

  function LadderRatio(rules: seq<Rule>): real
    requires Ladder(rules)
  {
    if rules == [] then 1.0 else Product(rules[0].minRatio, LadderRatio(rules[1..]))
  }

  lemma HierarchyMeans(rule: Rule, boxes: Boxes, slots: seq<string>, l: Box, s: Box)
    requires rule.SizeHierarchy? && Distinct(Names(boxes)) && Holds(rule, boxes, slots)
    requires (rule.larger, l) in boxes && (rule.smaller, s) in boxes
    ensures s.Height() > 0.0 && l.Height() >= Product(rule.minRatio, s.Height())
  {
    hide Product, Box.Height, Find;
    var l', s' :| (rule.larger, l') in boxes && (rule.smaller, s') in boxes
      && s'.Height() > 0.0 && l'.Height() >= Product(rule.minRatio, s'.Height());
    FindUnique(boxes, rule.larger, l');
    FindUnique(boxes, rule.smaller, s');
    FindUnique(boxes, rule.larger, l);
    FindUnique(boxes, rule.smaller, s);
  }

  /** Passing hierarchy rules multiply along a ladder of any length. */
  lemma {:induction false} LadderComposes(rules: seq<Rule>, boxes: Boxes, slots: seq<string>, top: Box, foot: Box)
    requires Ladder(rules) && rules != [] && Distinct(Names(boxes))
    requires forall i :: 0 <= i < |rules| ==> Holds(rules[i], boxes, slots)
    requires (rules[0].larger, top) in boxes && (rules[|rules| - 1].smaller, foot) in boxes
    ensures foot.Height() > 0.0 && top.Height() >= Product(LadderRatio(rules), foot.Height())
  {
    hide Product, Box.Height, Find;
    if |rules| == 1 {
      HierarchyMeans(rules[0], boxes, slots, top, foot);
      assert LadderRatio(rules[1..]) == 1.0;
      ProductByOne(rules[0].minRatio);
    } else {
      assert Holds(rules[0], boxes, slots);
      var next: Box :| (rules[0].smaller, next) in boxes;
      HierarchyMeans(rules[0], boxes, slots, top, next);
      LadderComposes(rules[1..], boxes, slots, next, foot);
      var tail := LadderRatio(rules[1..]);
      ProductsOrder(rules[0].minRatio, Product(tail, foot.Height()), top.Height(), next.Height());
      ProductAssociates(rules[0].minRatio, tail, foot.Height());
    }
  }

  lemma ProductByOne(r: real)
    ensures Product(r, 1.0) == r
  {
  }

  /** So hierarchy rules in a circle pass together only when their ratios multiply to at most one. */
  lemma CircleRatio(rules: seq<Rule>, boxes: Boxes, slots: seq<string>, top: Box)
    requires Ladder(rules) && rules != [] && Distinct(Names(boxes))
    requires forall i :: 0 <= i < |rules| ==> Holds(rules[i], boxes, slots)
    requires rules[0].larger == rules[|rules| - 1].smaller && (rules[0].larger, top) in boxes
    ensures LadderRatio(rules) <= 1.0
  {
    hide Product, Box.Height, LadderRatio;
    LadderComposes(rules, boxes, slots, top, top);
    ScaleCancels(LadderRatio(rules), top.Height());
  }
}
