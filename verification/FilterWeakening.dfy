/** What dropping untranslatable nodes does to a clause, by the sign of their place. */
module FilterWeakening {
  import opened Filters
  import opened FilterTokens
  import opened SqlReader
  import opened FilterMeaning

  function Opposite(t: Tri): Tri {
    if t.True? then False else if t.False? then True else Unsure
  }

  /** What a filter must come to for the rows that count: true, or false under a NOT. */
  function Wanted(positive: bool): Tri {
    if positive then True else False
  }

  function Truth3(db: Engine, row: Row, e: Filter): Tri {
    ToTri(Holds(db, row, e))
  }

  predicate IsTrue(v: Value) {
    ToTri(v).True?
  }

  predicate IsFalse(v: Value) {
    ToTri(v).False?
  }

  predicate EveryIs(db: Engine, row: Row, filters: seq<Filter>, t: Tri) {
    filters == [] || (Truth3(db, row, filters[0]) == t && EveryIs(db, row, filters[1..], t))
  }

  predicate SomeIs(db: Engine, row: Row, filters: seq<Filter>, t: Tri) {
    filters != [] && (Truth3(db, row, filters[0]) == t || SomeIs(db, row, filters[1..], t))
  }

  lemma {:induction false} ConjunctionIs(db: Engine, row: Row, filters: seq<Filter>)
    requires filters != []
    ensures ToTri(AllOf(HoldsAll(db, row, filters))) == True <==> EveryIs(db, row, filters, True)
    ensures ToTri(AllOf(HoldsAll(db, row, filters))) == False <==> SomeIs(db, row, filters, False)
    ensures ToTri(AnyOf(HoldsAll(db, row, filters))) == True <==> SomeIs(db, row, filters, True)
    ensures ToTri(AnyOf(HoldsAll(db, row, filters))) == False <==> EveryIs(db, row, filters, False)
  {
    var values := HoldsAll(db, row, filters);
    assert values[1..] == HoldsAll(db, row, filters[1..]);
    if |filters| > 1 {
      ConjunctionIs(db, row, filters[1..]);
    } else {
      assert filters[1..] == [];
    }
    hide Holds, HoldsAll;
  }

  // --- Dropping where it only weakens ---

  /** A conjunct may be dropped at a positive place and a disjunct at a negative one; NOT turns
      the sign. An item may be dropped from a NOT IN at a positive place and from an IN at a
      negative one. */
  predicate Droppable(tag: ConjunctionTag, positive: bool) {
    if positive then tag.AndTag? else tag.OrTag?
  }

  predicate IsList(e: Filter) {
    e.Operator? && (e.operator.InTag? || e.operator.NotInTag?) && e.children != []
  }

  /** Every child is translatable or dropped whole. */
  predicate Clear(children: seq<Filter>) {
    children == [] || ((Sql(children[0]).None? || Faithful(children[0])) && Clear(children[1..]))
  }

  predicate Weakens(e: Filter, positive: bool) {
    || Faithful(e)
    || (e.Cast? && Weakens(e.child, positive))
    || (e.Operator? && e.operator.NotTag? && |e.children| == 1 && Weakens(e.children[0], !positive))
    || (IsList(e) && Faithful(e.children[0]) && Operand(e.children[0]) && Clear(e.children[1..])
        && e.operator == (if positive then NotInTag else InTag))
    || (e.Conjunction? && !e.conjunction.OtherConjunction?
        && AllWeaken(e.children, positive, Droppable(e.conjunction, positive)))
  }

  predicate AllWeaken(children: seq<Filter>, positive: bool, mayDrop: bool) {
    children == [] || (&& (if Sql(children[0]).None? then mayDrop else Weakens(children[0], positive))
                       && AllWeaken(children[1..], positive, mayDrop))
  }

  /** The filter without what is dropped. */
  function Pruned(e: Filter): Filter {
    if Faithful(e) then e
    else
      match e
      case Cast(child) => Cast(Pruned(child))
      case Operator(tag, children) => Operator(tag, PrunedAll(children))
      case Conjunction(tag, children) => Conjunction(tag, PrunedAll(children))
      case _ => e
  }

  function PrunedAll(children: seq<Filter>): seq<Filter> {
    if children == [] then []
    else (if Sql(children[0]).Some? then [Pruned(children[0])] else []) + PrunedAll(children[1..])
  }

  /** The children that are printed, and those that are not. */
  function Printed(children: seq<Filter>, yes: bool): seq<Filter> {
    if children == [] then []
    else (if Sql(children[0]).Some? == yes then [children[0]] else []) + Printed(children[1..], yes)
  }

  lemma {:induction false} PrintedParts(children: seq<Filter>)
    requires Clear(children)
    ensures FaithfulAll(Printed(children, true)) && Parts(Printed(children, true)) == Parts(children)
    ensures |Printed(children, true)| == |Parts(children)|
  {
    if children != [] {
      var first, rest := children[0], children[1..];
      PrintedParts(rest);
      hide Sql, Faithful;
      if Sql(first).Some? {
        assert Printed(children, true)[0] == first && Printed(children, true)[1..] == Printed(rest, true);
      } else {
        assert [] + Printed(rest, true) == Printed(rest, true) && [] + Parts(rest) == Parts(rest);
      }
    }
  }

  lemma {:induction false} PrunedIsPrinted(children: seq<Filter>)
    requires Clear(children)
    ensures PrunedAll(children) == Printed(children, true)
  {
    if children != [] {
      PrunedIsPrinted(children[1..]);
    }
  }

  lemma {:induction false} PrunedNot(e: Filter)
    requires e.Operator? && e.operator.NotTag? && |e.children| == 1 && Sql(e).Some? && !Faithful(e)
    ensures Sql(e.children[0]).Some? && Pruned(e) == Operator(NotTag, [Pruned(e.children[0])])
  {
    var children := e.children;
    assert children[1..] == [] && PrunedAll(children[1..]) == [];
    assert [Pruned(children[0])] + [] == [Pruned(children[0])];
  }

  /** The text is that of the pruned filter, which is faithful, and which at a positive place
      keeps what is true and at a negative one what is false. */
  lemma {:induction false} PrunedWeakens(db: Engine, row: Row, e: Filter, positive: bool)
    requires Weakens(e, positive) && Sql(e).Some?
    ensures Faithful(Pruned(e)) && Sql(Pruned(e)) == Sql(e)
    ensures Truth3(db, row, e) == Wanted(positive) ==> Truth3(db, row, Pruned(e)) == Wanted(positive)
    decreases e, 1
  {
    if !Faithful(e) {
      if e.Cast? {
        PrunedWeakens(db, row, e.child, positive);
      } else if e.Operator? && e.operator.NotTag? {
        PrunedNot(e);
        PrunedWeakens(db, row, e.children[0], !positive);
        OneChild(Pruned(e.children[0]));
      } else if e.Operator? {
        PrunedList(e);
        PrunedListWeakens(db, row, e, positive);
      } else {
        PrunedConjunction(db, row, e, positive);
      }
    }
  }

  lemma {:induction false} PrunedList(e: Filter)
    requires IsList(e) && Faithful(e.children[0]) && Operand(e.children[0]) && Clear(e.children[1..])
    requires Sql(e).Some? && !Faithful(e)
    ensures Pruned(e) == KeptList(e) && Faithful(KeptList(e)) && Sql(KeptList(e)) == Sql(e)
  {
    var children := e.children;
    FaithfulPrints(children[0]);
    PrunedIsPrinted(children[1..]);
    assert PrunedAll(children) == [children[0]] + Printed(children[1..], true);
    KeptListPrints(e);
  }

  lemma {:induction false} OneChild(c: Filter)
    ensures FaithfulAll([c]) == Faithful(c)
  {
    assert [c][1..] == [];
  }

  lemma {:induction false} PrunedConjunction(db: Engine, row: Row, e: Filter, positive: bool)
    requires Weakens(e, positive) && Sql(e).Some? && !Faithful(e) && e.Conjunction?
    ensures Faithful(Pruned(e)) && Sql(Pruned(e)) == Sql(e)
    ensures Truth3(db, row, e) == Wanted(positive) ==> Truth3(db, row, Pruned(e)) == Wanted(positive)
    decreases e, 0
  {
    var children, kept := e.children, PrunedAll(e.children);
    PrunedAllWeakens(db, row, children, positive, Droppable(e.conjunction, positive));
    assert kept != [] && children != [];
    ConjunctionIs(db, row, children);
    ConjunctionIs(db, row, kept);
    hide PrunedAll, EveryIs, SomeIs, HoldsAll, AllOf, AnyOf, Parts;
  }

  lemma {:induction false} PrunedAllWeakens(db: Engine, row: Row, children: seq<Filter>, positive: bool, mayDrop: bool)
    requires AllWeaken(children, positive, mayDrop)
    ensures var kept := PrunedAll(children);
            && FaithfulAll(kept) && Parts(kept) == Parts(children) && |kept| == |Parts(children)|
            && (EveryIs(db, row, children, Wanted(positive)) ==> EveryIs(db, row, kept, Wanted(positive)))
            && (!mayDrop && SomeIs(db, row, children, Wanted(positive)) ==> SomeIs(db, row, kept, Wanted(positive)))
    decreases children, 0
  {
    if children != [] {
      var first, rest := children[0], children[1..];
      PrunedAllWeakens(db, row, rest, positive, mayDrop);
      if Sql(first).Some? {
        PrunedWeakens(db, row, first, positive);
        hide Sql, Truth3, Faithful, Pruned, Weakens;
        var kept := PrunedAll(children);
        assert kept[0] == Pruned(first) && kept[1..] == PrunedAll(rest);
      } else {
        assert [] + PrunedAll(rest) == PrunedAll(rest) && [] + Parts(rest) == Parts(rest);
      }
    }
  }

  /** The row passes every one of the filters. */
  predicate Passes(db: Engine, row: Row, filters: seq<Filter>) {
    EveryIs(db, row, filters, True)
  }

  /** Where conjuncts are dropped at positive places only and disjuncts at negative ones only,
      the clause, if there is one, reads as a condition that every row passing all the filters
      passes too. */
  lemma {:induction false} DroppingIsSafe(db: Engine, row: Row, filters: seq<Filter>)
    requires AllWeaken(filters, true, true) && WhereClause(filters).Some?
    ensures var x := ReadCondition(WhereClause(filters).value);
            x.Some? && (Passes(db, row, filters) ==> IsTrue(Eval(db, row, x.value)))
  {
    var kept := PrunedAll(filters);
    PrunedAllWeakens(db, row, filters, true, true);
    ClauseKeepsMeaning(db, row, kept);
    ConjunctionIs(db, row, kept);
    hide ReadCondition, Eval, Sql, Faithful, Pruned, EveryIs;
  }

  // --- Lists ---

  /** The list without the items that are dropped. */
  function KeptList(e: Filter): Filter
    requires IsList(e)
  {
    Operator(e.operator, [e.children[0]] + Printed(e.children[1..], true))
  }

  lemma {:induction false} FaithfulPrints(e: Filter)
    requires Faithful(e)
    ensures Sql(e).Some?
  {
    SqlReads(e);
  }

  lemma {:induction false} KeptListPrints(e: Filter)
    requires IsList(e) && Faithful(e.children[0]) && Operand(e.children[0]) && Clear(e.children[1..])
    requires Sql(e).Some?
    ensures Faithful(KeptList(e)) && Sql(KeptList(e)) == Sql(e)
  {
    var items := e.children[1..];
    var kept := Printed(items, true);
    PrintedParts(items);
    assert KeptList(e).children[1..] == kept;
    hide Printed, Parts, Operand;
    assert kept != [];
  }

  /** Some item equals the value. */
  predicate Hits(db: Engine, row: Row, v: Value, items: seq<Filter>) {
    items != [] && (IsTrue(db.compare(Equal, v, Holds(db, row, items[0]))) || Hits(db, row, v, items[1..]))
  }

  lemma {:induction false} HitsPrinted(db: Engine, row: Row, v: Value, items: seq<Filter>)
    ensures Hits(db, row, v, items)
       <==> Hits(db, row, v, Printed(items, true)) || Hits(db, row, v, Printed(items, false))
  {
    if items != [] {
      var yes := Sql(items[0]).Some?;
      HitsPrinted(db, row, v, items[1..]);
      hide Sql, Holds;
      assert Printed(items, yes)[0] == items[0] && Printed(items, yes)[1..] == Printed(items[1..], yes);
      assert [] + Printed(items[1..], !yes) == Printed(items[1..], !yes);
    }
  }

  /** Every item differs from the value. */
  predicate Misses(db: Engine, row: Row, v: Value, items: seq<Filter>) {
    items == [] || (IsFalse(db.compare(Equal, v, Holds(db, row, items[0]))) && Misses(db, row, v, items[1..]))
  }

  lemma {:induction false} MissesPrinted(db: Engine, row: Row, v: Value, items: seq<Filter>)
    requires Misses(db, row, v, items)
    ensures Misses(db, row, v, Printed(items, true))
  {
    if items != [] {
      MissesPrinted(db, row, v, items[1..]);
      hide Sql, Holds;
      var yes := Sql(items[0]).Some?;
      assert Printed(items, yes)[0] == items[0] && Printed(items, yes)[1..] == Printed(items[1..], yes);
      assert [] + Printed(items[1..], !yes) == Printed(items[1..], !yes);
    }
  }

  lemma {:induction false} OneOfIs(db: Engine, row: Row, v: Value, items: seq<Filter>)
    ensures ToTri(OneOf(db, v, HoldsAll(db, row, items))) == True <==> Hits(db, row, v, items)
    ensures ToTri(OneOf(db, v, HoldsAll(db, row, items))) == False <==> Misses(db, row, v, items)
  {
    if items != [] {
      var values := HoldsAll(db, row, items);
      OneOfIs(db, row, v, items[1..]);
      assert values[1..] == HoldsAll(db, row, items[1..]) && values[0] == Holds(db, row, items[0]);
      hide HoldsAll, Holds;
      if |items| == 1 {
        assert items[1..] == [];
      }
    }
  }

  lemma {:induction false} ListIs(db: Engine, row: Row, e: Filter)
    requires IsList(e)
    ensures var v := Holds(db, row, e.children[0]);
            var t := Truth3(db, row, e);
            && (t == Wanted(e.operator.InTag?) <==> Hits(db, row, v, e.children[1..]))
            && (t == Wanted(e.operator.NotInTag?) <==> Misses(db, row, v, e.children[1..]))
  {
    OneOfIs(db, row, Holds(db, row, e.children[0]), e.children[1..]);
    hide OneOf, HoldsAll, Hits, Misses;
  }

  lemma {:induction false} PrunedListWeakens(db: Engine, row: Row, e: Filter, positive: bool)
    requires IsList(e) && e.operator == if positive then NotInTag else InTag
    ensures Truth3(db, row, e) == Wanted(positive) ==> Truth3(db, row, KeptList(e)) == Wanted(positive)
  {
    ListIs(db, row, e);
    ListIs(db, row, KeptList(e));
    var v, items := Holds(db, row, e.children[0]), e.children[1..];
    assert KeptList(e).children[1..] == Printed(items, true);
    if Misses(db, row, v, items) {
      MissesPrinted(db, row, v, items);
    }
    hide Truth3, Misses, Hits, Printed;
  }

  // --- Exactly which rows a dropped node loses, at any depth ---

  /** One level around a filter. */
  datatype Frame =
    | Among(tag: ConjunctionTag, before: seq<Filter>, after: seq<Filter>)
    | UnderNot
    | UnderCast

  function Wrap(f: Frame, e: Filter): Filter {
    match f
    case Among(tag, before, after) => Conjunction(tag, before + [e] + after)
    case UnderNot => Operator(NotTag, [e])
    case UnderCast => Cast(e)
  }

  /** The frames from the inside out. */
  function Plug(path: seq<Frame>, e: Filter): Filter {
    if path == [] then e else Plug(path[1..], Wrap(path[0], e))
  }

  /** The sign of the place inside. */
  function Positive(path: seq<Frame>): bool {
    if path == [] then true else if path[0].UnderNot? then !Positive(path[1..]) else Positive(path[1..])
  }

  /** The siblings are translatable, and on this row leave the decision to what they surround. */
  predicate Neutral(db: Engine, row: Row, f: Frame) {
    f.Among? ==>
      && !f.tag.OtherConjunction? && FaithfulAll(f.before) && FaithfulAll(f.after)
      && EveryIs(db, row, f.before, if f.tag.AndTag? then True else False)
      && EveryIs(db, row, f.after, if f.tag.AndTag? then True else False)
  }

  predicate AllNeutral(db: Engine, row: Row, path: seq<Frame>) {
    path == [] || (Neutral(db, row, path[0]) && AllNeutral(db, row, path[1..]))
  }

  lemma {:induction false} AmongFaithful(before: seq<Filter>, e: Filter, after: seq<Filter>)
    requires FaithfulAll(before) && Faithful(e) && FaithfulAll(after)
    ensures FaithfulAll(before + [e] + after)
  {
    var all := before + [e] + after;
    if before == [] {
      assert all[1..] == after;
    } else {
      AmongFaithful(before[1..], e, after);
      assert all[0] == before[0] && all[1..] == before[1..] + [e] + after;
    }
  }

  lemma {:induction false} AmongParts(before: seq<Filter>, a: Filter, b: Filter, after: seq<Filter>)
    requires Sql(a) == Sql(b)
    ensures Parts(before + [a] + after) == Parts(before + [b] + after)
  {
    hide Sql;
    var x, y := before + [a] + after, before + [b] + after;
    if before == [] {
      assert x[0] == a && y[0] == b && x[1..] == after == y[1..];
    } else {
      AmongParts(before[1..], a, b, after);
      assert x[0] == before[0] == y[0];
      assert x[1..] == before[1..] + [a] + after && y[1..] == before[1..] + [b] + after;
    }
  }

  lemma {:induction false} AmongTruth(db: Engine, row: Row, before: seq<Filter>, e: Filter, after: seq<Filter>, t: Tri)
    requires t.True? || t.False?
    requires EveryIs(db, row, before, t) && EveryIs(db, row, after, t)
    ensures var all := before + [e] + after;
            && (EveryIs(db, row, all, t) <==> Truth3(db, row, e) == t)
            && (SomeIs(db, row, all, Opposite(t)) <==> Truth3(db, row, e) == Opposite(t))
  {
    hide Truth3;
    var all := before + [e] + after;
    if before == [] {
      assert all[0] == e && all[1..] == after;
      NoneOpposite(db, row, after, t);
    } else {
      AmongTruth(db, row, before[1..], e, after, t);
      assert all[0] == before[0] && all[1..] == before[1..] + [e] + after;
    }
  }

  lemma {:induction false} NoneOpposite(db: Engine, row: Row, filters: seq<Filter>, t: Tri)
    requires (t.True? || t.False?) && EveryIs(db, row, filters, t)
    ensures !SomeIs(db, row, filters, Opposite(t))
  {
    if filters != [] {
      NoneOpposite(db, row, filters[1..], t);
    }
  }

  lemma {:induction false} WrapTruth(db: Engine, row: Row, f: Frame, e: Filter)
    requires Neutral(db, row, f)
    ensures Truth3(db, row, Wrap(f, e)) == if f.UnderNot? then Opposite(Truth3(db, row, e)) else Truth3(db, row, e)
  {
    if f.Among? {
      var all := f.before + [e] + f.after;
      AmongTruth(db, row, f.before, e, f.after, if f.tag.AndTag? then True else False);
      ConjunctionIs(db, row, all);
      hide EveryIs, SomeIs, FaithfulAll, HoldsAll, AllOf, AnyOf;
    }
  }

  lemma {:induction false} PlugTruth(db: Engine, row: Row, path: seq<Frame>, e: Filter)
    requires AllNeutral(db, row, path)
    ensures Truth3(db, row, Plug(path, e))
         == if Positive(path) then Truth3(db, row, e) else Opposite(Truth3(db, row, e))
    decreases |path|
  {
    if path != [] {
      hide Truth3, Neutral, Wrap;
      WrapTruth(db, row, path[0], e);
      PlugTruth(db, row, path[1..], Wrap(path[0], e));
    }
  }

  lemma {:induction false} WrapPrints(db: Engine, row: Row, f: Frame, a: Filter, b: Filter)
    requires Neutral(db, row, f) && Sql(a) == Sql(b) && Faithful(b)
    ensures Sql(Wrap(f, a)) == Sql(Wrap(f, b)) && Faithful(Wrap(f, b))
  {
    if f.Among? {
      AmongFaithful(f.before, b, f.after);
      AmongParts(f.before, a, b, f.after);
    } else {
      OneChild(b);
    }
  }

  lemma {:induction false} PlugPrints(db: Engine, row: Row, path: seq<Frame>, a: Filter, b: Filter)
    requires AllNeutral(db, row, path) && Sql(a) == Sql(b) && Faithful(b)
    ensures Sql(Plug(path, a)) == Sql(Plug(path, b)) && Faithful(Plug(path, b))
    decreases |path|
  {
    if path != [] {
      hide Sql, Faithful, Neutral, Wrap;
      WrapPrints(db, row, path[0], a, b);
      PlugPrints(db, row, path[1..], Wrap(path[0], a), Wrap(path[0], b));
    }
  }

  lemma {:induction false} PrintedOrNot(db: Engine, row: Row, children: seq<Filter>, t: Tri)
    ensures EveryIs(db, row, children, t)
       <==> EveryIs(db, row, Printed(children, true), t) && EveryIs(db, row, Printed(children, false), t)
    ensures SomeIs(db, row, children, t)
       <==> SomeIs(db, row, Printed(children, true), t) || SomeIs(db, row, Printed(children, false), t)
  {
    if children != [] {
      var first, rest := children[0], children[1..];
      var yes := Sql(first).Some?;
      PrintedOrNot(db, row, rest, t);
      hide Sql, Truth3;
      assert Printed(children, yes)[0] == first && Printed(children, yes)[1..] == Printed(rest, yes);
      assert [] + Printed(rest, !yes) == Printed(rest, !yes);
    }
  }

  /** What it takes to lose a row: at a positive place under an OR, a dropped disjunct is true
      and no printed one is; at a negative place under an AND, a dropped conjunct is false and
      no printed one is. */
  predicate Loses(db: Engine, row: Row, tag: ConjunctionTag, children: seq<Filter>, positive: bool) {
    && tag == (if positive then OrTag else AndTag)
    && SomeIs(db, row, Printed(children, false), Wanted(positive))
    && !SomeIs(db, row, Printed(children, true), Wanted(positive))
  }

  /** At the node itself. */
  lemma {:induction false} NodeLoses(db: Engine, row: Row, tag: ConjunctionTag, children: seq<Filter>, positive: bool)
    requires !tag.OtherConjunction? && Printed(children, true) != []
    ensures (&& Truth3(db, row, Conjunction(tag, children)) == Wanted(positive)
             && Truth3(db, row, Conjunction(tag, Printed(children, true))) != Wanted(positive))
       <==> Loses(db, row, tag, children, positive)
  {
    var kept := Printed(children, true);
    PrintedOrNot(db, row, children, Wanted(positive));
    assert children != [];
    ConjunctionIs(db, row, children);
    ConjunctionIs(db, row, kept);
    hide EveryIs, SomeIs, Printed, HoldsAll, AllOf, AnyOf;
  }

  /** A dropped item equals the operand and no printed one does, in an IN at a positive place or
      in a NOT IN at a negative one. */
  predicate LosesItem(db: Engine, row: Row, e: Filter, positive: bool)
    requires IsList(e)
  {
    var v, items := Holds(db, row, e.children[0]), e.children[1..];
    && e.operator == (if positive then InTag else NotInTag)
    && Hits(db, row, v, Printed(items, false))
    && !Hits(db, row, v, Printed(items, true))
  }

  lemma {:induction false} ListLoses(db: Engine, row: Row, e: Filter, positive: bool)
    requires IsList(e)
    ensures (Truth3(db, row, e) == Wanted(positive) && Truth3(db, row, KeptList(e)) != Wanted(positive))
       <==> LosesItem(db, row, e, positive)
  {
    var v, items := Holds(db, row, e.children[0]), e.children[1..];
    ListIs(db, row, e);
    ListIs(db, row, KeptList(e));
    assert KeptList(e).children[1..] == Printed(items, true);
    HitsPrinted(db, row, v, items);
    if Misses(db, row, v, items) {
      MissesPrinted(db, row, v, items);
    }
    hide Truth3, Hits, Misses, Printed, Holds;
  }

  /** A node that prints like a faithful one, among siblings that leave the decision to it: the
      clause reads as a condition, and loses the row exactly when the node has the wanted value
      there and the printed one has not. */
  lemma {:induction false} PluggedRow(db: Engine, row: Row, path: seq<Frame>, node: Filter, kept: Filter)
    requires Sql(node) == Sql(kept) && Faithful(kept) && AllNeutral(db, row, path)
    ensures ClauseLoses(db, row, Plug(path, node))
       <==> Truth3(db, row, node) == Wanted(Positive(path)) && Truth3(db, row, kept) != Wanted(Positive(path))
    ensures ClauseReads(Plug(path, node))
  {
    PlugPrints(db, row, path, node, kept);
    PlugTruth(db, row, path, node);
    PlugTruth(db, row, path, kept);
    hide Truth3, AllNeutral, Sql, Faithful, Plug;
    OneFilter(db, row, Plug(path, node), Plug(path, kept));
    OnePasses(db, row, Plug(path, node));
    LostBySign(Truth3(db, row, node), Truth3(db, row, kept), Positive(path));
  }

  /** The filter alone makes a clause that reads as a condition. */
  predicate ClauseReads(e: Filter) {
    WhereClause([e]).Some? && ReadCondition(WhereClause([e]).value).Some?
  }

  /** The row passes the filter and not the clause. */
  predicate ClauseLoses(db: Engine, row: Row, e: Filter) {
    ClauseReads(e) && Passes(db, row, [e])
    && !IsTrue(Eval(db, row, ReadCondition(WhereClause([e]).value).value))
  }

  /** A conjunction at any depth, some of whose children are dropped whole: exactly when the
      clause loses a row. */
  lemma {:induction false} RowIsLostIff(
    db: Engine, row: Row, path: seq<Frame>, tag: ConjunctionTag, children: seq<Filter>)
    requires !tag.OtherConjunction? && Clear(children) && Parts(children) != [] && AllNeutral(db, row, path)
    ensures var e := Plug(path, Conjunction(tag, children));
            ClauseReads(e) && (ClauseLoses(db, row, e) <==> Loses(db, row, tag, children, Positive(path)))
  {
    var node, kept := Conjunction(tag, children), Conjunction(tag, Printed(children, true));
    PrintedParts(children);
    assert Sql(node) == Sql(kept) && Faithful(kept);
    NodeLoses(db, row, tag, children, Positive(path));
    hide Printed, Loses, Truth3, Parts, Clear, AllNeutral, Sql, Faithful, Plug, ClauseLoses, ClauseReads;
    PluggedRow(db, row, path, node, kept);
  }

  /** A list at any depth, some of whose items are dropped. */
  lemma {:induction false} ListRowIsLostIff(db: Engine, row: Row, path: seq<Frame>, e: Filter)
    requires IsList(e) && Faithful(e.children[0]) && Operand(e.children[0]) && Clear(e.children[1..])
    requires Sql(e).Some? && AllNeutral(db, row, path)
    ensures ClauseReads(Plug(path, e))
    ensures ClauseLoses(db, row, Plug(path, e)) <==> LosesItem(db, row, e, Positive(path))
  {
    KeptListPrints(e);
    ListLoses(db, row, e, Positive(path));
    hide LosesItem, Truth3, Clear, AllNeutral, Sql, Faithful, Plug, ClauseLoses, ClauseReads;
    PluggedRow(db, row, path, e, KeptList(e));
  }

  // --- Dropped arguments ---

  function KeptCall(name: string, children: seq<Filter>): Filter {
    Function(name, Printed(children, true))
  }

  /** A function some of whose arguments are dropped calls the function with the others: the
      clause loses a row exactly when the two calls differ so. */
  lemma {:induction false} CallRowIsLostIff(
    db: Engine, row: Row, path: seq<Frame>, name: string, children: seq<Filter>)
    requires Name(name) && !Pattern(name) && Clear(children) && Parts(children) != []
    requires AllNeutral(db, row, path)
    ensures var e := Plug(path, Function(name, children));
            && ClauseReads(e)
            && (ClauseLoses(db, row, e)
                <==> ToTri(db.call(name, HoldsAll(db, row, children))) == Wanted(Positive(path))
                     && ToTri(db.call(name, HoldsAll(db, row, Printed(children, true)))) != Wanted(Positive(path)))
  {
    var node := Function(name, children);
    PrintedParts(children);
    hide Printed, Parts, Clear, LikenessOf, Pattern, Name;
    assert Sql(node) == Sql(KeptCall(name, children)) && Faithful(KeptCall(name, children));
    assert Truth3(db, row, node) == ToTri(db.call(name, HoldsAll(db, row, children)));
    assert Truth3(db, row, KeptCall(name, children))
        == ToTri(db.call(name, HoldsAll(db, row, Printed(children, true))));
    hide Truth3, AllNeutral, Sql, Faithful, Plug, ClauseLoses, ClauseReads, KeptCall, HoldsAll;
    PluggedRow(db, row, path, node, KeptCall(name, children));
  }

  /** An engine whose functions ask for so many arguments. */
  function Counts(db: Engine, n: nat): Engine {
    db.(call := (name, args) => Truth(|args| == n))
  }

  lemma {:induction false} PrintedLength(children: seq<Filter>)
    ensures |Printed(children, true)| + |Printed(children, false)| == |children|
  {
    if children != [] {
      PrintedLength(children[1..]);
    }
  }

  /** Whatever argument is dropped, some engine then loses every row. */
  lemma {:induction false} DroppedArgumentLosesRows(db: Engine, row: Row, name: string, children: seq<Filter>)
    requires Name(name) && !Pattern(name) && Clear(children) && Parts(children) != []
    requires Printed(children, false) != []
    ensures ClauseLoses(Counts(db, |children|), row, Function(name, children))
  {
    var engine := Counts(db, |children|);
    PrintedLength(children);
    hide Printed, Parts, Clear, LikenessOf, Pattern, Name, ClauseLoses, ClauseReads;
    CallRowIsLostIff(engine, row, [], name, children);
  }

  lemma {:induction false} LostBySign(a: Tri, b: Tri, positive: bool)
    ensures var x, y := if positive then a else Opposite(a), if positive then b else Opposite(b);
            (x == True && y != True) <==> (a == Wanted(positive) && b != Wanted(positive))
  {
  }

  lemma {:induction false} OnePasses(db: Engine, row: Row, e: Filter)
    ensures Passes(db, row, [e]) <==> Truth3(db, row, e) == True
  {
    assert [e][1..] == [] && [e][0] == e;
    assert EveryIs(db, row, [e][1..], True);
  }

  /** A filter that prints like a faithful one is read as that one. */
  lemma {:induction false} OneFilter(db: Engine, row: Row, e: Filter, e': Filter)
    requires Sql(e) == Sql(e') && Faithful(e')
    ensures WhereClause([e]).Some?
    ensures var x := ReadCondition(WhereClause([e]).value);
            x.Some? && ToTri(Eval(db, row, x.value)) == Truth3(db, row, e')
            && Eval(db, row, x.value) == Holds(db, row, e')
  {
    OneChild(e');
    assert [e][1..] == [] && [e'][1..] == [];
    assert Parts([e]) == Parts([e']);
    assert AllOf(HoldsAll(db, row, [e'])) == Holds(db, row, e');
    hide Sql, Faithful, Holds, ReadCondition, Eval;
    ClauseKeepsMeaning(db, row, [e']);
  }
}
