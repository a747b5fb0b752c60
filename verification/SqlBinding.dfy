/** Positional binding: which parameter each placeholder receives, and why the tree order is the text order. */
module SqlBinding {
  import opened Sql

  // ----- placeholders in the order they are printed -----

  /** The slots the placeholders were meant for, in textual order. */
  function Intended(e: Expr): seq<Slot> {
    match e
    case Placeholder(slot) => [slot]
    case Apply(_, args) => IntendedAll(args)
    case _ => []
  }

  function IntendedAll(es: seq<Expr>): seq<Slot> {
    if es == [] then [] else Intended(es[0]) + IntendedAll(es[1..])
  }

  function IntendedReplacements(items: seq<Replacement>): seq<Slot> {
    if items == [] then [] else Intended(items[0].expr) + IntendedReplacements(items[1..])
  }

  function IntendedAggregates(items: seq<AggregateItem>): seq<Slot> {
    if items == [] then [] else Intended(items[0].argument) + IntendedAggregates(items[1..])
  }

  function IntendedList(list: SelectList): seq<Slot> {
    match list
    case Replace(items) => IntendedReplacements(items)
    case Aggregates(_, items) => IntendedAggregates(items)
    case _ => []
  }

  function IntendedSuffix(suffix: Suffix): seq<Slot> {
    match suffix
    case Where(condition) => Intended(condition)
    case LimitTo(count) => Intended(count)
    case _ => []
  }

  function IntendedQuery(q: Query): seq<Slot> {
    match q
    case Base(_) => []
    case Select(list, from, suffix) => IntendedList(list) + IntendedQuery(from) + IntendedSuffix(suffix)
    case JoinOn(_, left, right, on) => IntendedQuery(left) + IntendedQuery(right) + Intended(on)
    case With(_, definition, body) => IntendedQuery(definition) + IntendedQuery(body)
  }

  // ----- binding: the k-th placeholder takes the k-th parameter -----

  function Bind(e: Expr, ps: seq<Slot>): Expr
    requires |ps| == |Intended(e)|
  {
    match e
    case Placeholder(_) => Literal(ps[0].value)
    case Apply(fn, args) => Apply(fn, BindAll(args, ps))
    case _ => e
  }

  function BindAll(es: seq<Expr>, ps: seq<Slot>): seq<Expr>
    requires |ps| == |IntendedAll(es)|
  {
    if es == [] then []
    else
      var k := |Intended(es[0])|;
      [Bind(es[0], ps[..k])] + BindAll(es[1..], ps[k..])
  }

  function BindReplacements(items: seq<Replacement>, ps: seq<Slot>): seq<Replacement>
    requires |ps| == |IntendedReplacements(items)|
  {
    if items == [] then []
    else
      var k := |Intended(items[0].expr)|;
      [Replacement(Bind(items[0].expr, ps[..k]), items[0].column)] + BindReplacements(items[1..], ps[k..])
  }

  function BindAggregates(items: seq<AggregateItem>, ps: seq<Slot>): seq<AggregateItem>
    requires |ps| == |IntendedAggregates(items)|
  {
    if items == [] then []
    else
      var k := |Intended(items[0].argument)|;
      [AggregateItem(items[0].fn, Bind(items[0].argument, ps[..k]), items[0].output)]
      + BindAggregates(items[1..], ps[k..])
  }

  function BindList(list: SelectList, ps: seq<Slot>): SelectList
    requires |ps| == |IntendedList(list)|
  {
    match list
    case Replace(items) => Replace(BindReplacements(items, ps))
    case Aggregates(groups, items) => Aggregates(groups, BindAggregates(items, ps))
    case _ => list
  }

  function BindSuffix(suffix: Suffix, ps: seq<Slot>): Suffix
    requires |ps| == |IntendedSuffix(suffix)|
  {
    match suffix
    case Where(condition) => Where(Bind(condition, ps))
    case LimitTo(count) => LimitTo(Bind(count, ps))
    case _ => suffix
  }

  function BindQuery(q: Query, ps: seq<Slot>): Query
    requires |ps| == |IntendedQuery(q)|
  {
    match q
    case Base(_) => q
    case Select(list, from, suffix) =>
      var i, j := |IntendedList(list)|, |IntendedList(list)| + |IntendedQuery(from)|;
      Select(BindList(list, ps[..i]), BindQuery(from, ps[i..j]), BindSuffix(suffix, ps[j..]))
    case JoinOn(outer, left, right, on) =>
      var i, j := |IntendedQuery(left)|, |IntendedQuery(left)| + |IntendedQuery(right)|;
      JoinOn(outer, BindQuery(left, ps[..i]), BindQuery(right, ps[i..j]), Bind(on, ps[j..]))
    case With(name, definition, body) =>
      var i := |IntendedQuery(definition)|;
      With(name, BindQuery(definition, ps[..i]), BindQuery(body, ps[i..]))
  }

  /** A database takes a statement only with exactly as many parameters as it has placeholders. */
  ghost predicate Accepts(q: Query, ps: seq<Slot>) {
    |ps| == |IntendedQuery(q)|
  }

  function Values(ps: seq<Slot>): seq<Value> {
    seq(|ps|, i requires 0 <= i < |ps| => ps[i].value)
  }

  // ----- tree order is text order -----

  /** Fixed text of the templates. */
  datatype Phrase =
    | SelectKeyword | SelectReplace | CloseReplace | As | Comma
    | FromOpen | AsInputRel | WhereKeyword | GroupByKeyword | OrderByKeyword | LimitKeyword
    | SelectBothSides | AsLeftRelJoin(leftOuter: bool) | AsRightRelOn | RightRelDot
    | WithKeyword | AsMaterialized | CloseMaterialized

  /** A statement as printed: fixed text, the text of a function around its `k`-th argument, names,
      bound constants, and anonymous `?` marks. */
  datatype Token =
    | Word(phrase: Phrase) | Around(fn: Function, k: nat) | Name(name: string) | Direction(descending: bool)
    | Constant(value: Value) | Mark

  function Render(e: Expr): seq<Token>
    decreases e
  {
    match e
    case Column(LeftRel, name) => [Name(name)]
    case Column(RightRel, name) => [Word(RightRelDot), Name(name)]
    case Literal(v) => [Constant(v)]
    case Placeholder(_) => [Mark]
    case Apply(fn, args) => RenderArgs(fn, args, 0)
  }

  function RenderArgs(fn: Function, args: seq<Expr>, k: nat): seq<Token>
    decreases args
  {
    if args == [] then [Around(fn, k)]
    else [Around(fn, k)] + Render(args[0]) + RenderArgs(fn, args[1..], k + 1)
  }

  function RenderNames(names: seq<string>): seq<Token> {
    if names == [] then [] else [Name(names[0]), Word(Comma)] + RenderNames(names[1..])
  }

  function RenderReplacements(items: seq<Replacement>): seq<Token> {
    if items == [] then []
    else Render(items[0].expr) + [Word(As), Name(items[0].column)] + RenderReplacements(items[1..])
  }

  function RenderAggregates(items: seq<AggregateItem>): seq<Token> {
    if items == [] then []
    else Render(items[0].argument) + [Word(As), Name(items[0].output)] + RenderAggregates(items[1..])
  }

  function RenderList(list: SelectList): seq<Token> {
    match list
    case Star => [Word(SelectKeyword)]
    case Columns(names) => [Word(SelectKeyword)] + RenderNames(names)
    case Replace(items) => [Word(SelectReplace)] + RenderReplacements(items) + [Word(CloseReplace)]
    case Aggregates(groups, items) => [Word(SelectKeyword)] + RenderNames(groups) + RenderAggregates(items)
  }

  function RenderKeys(keys: seq<SortKey>): seq<Token> {
    if keys == [] then []
    else [Name(keys[0].field), Direction(keys[0].descending)] + RenderKeys(keys[1..])
  }

  function RenderSuffix(list: SelectList, suffix: Suffix): seq<Token> {
    match suffix
    case NoSuffix => if list.Aggregates? then [Word(GroupByKeyword)] + RenderNames(list.groups) else []
    case Where(condition) => [Word(WhereKeyword)] + Render(condition)
    case OrderBy(keys) => [Word(OrderByKeyword)] + RenderKeys(keys)
    case LimitTo(count) => [Word(LimitKeyword)] + Render(count)
  }

  function RenderQuery(q: Query): seq<Token> {
    match q
    case Base(table) => [Word(SelectKeyword), Name(table)]
    case Select(list, from, suffix) =>
      RenderList(list) + [Word(FromOpen)] + RenderQuery(from) + [Word(AsInputRel)] + RenderSuffix(list, suffix)
    case JoinOn(outer, left, right, on) =>
      [Word(SelectBothSides)] + RenderQuery(left) + [Word(AsLeftRelJoin(outer))] + RenderQuery(right)
      + [Word(AsRightRelOn)] + Render(on)
    case With(name, definition, body) =>
      [Word(WithKeyword), Name(name), Word(AsMaterialized)] + RenderQuery(definition) + [Word(CloseMaterialized)] + RenderQuery(body)
  }

  function Marks(ts: seq<Token>): nat {
    if ts == [] then 0 else (if ts[0].Mark? then 1 else 0) + Marks(ts[1..])
  }

  /** Binding on the printed text: each `?`, read left to right, takes the next parameter. */
  function BindText(ts: seq<Token>, ps: seq<Slot>): seq<Token> {
    if ts == [] then []
    else if ts[0].Mark? && ps != [] then [Constant(ps[0].value)] + BindText(ts[1..], ps[1..])
    else [ts[0]] + BindText(ts[1..], ps)
  }

  lemma {:induction false} MarksConcat(a: seq<Token>, b: seq<Token>)
    ensures Marks(a + b) == Marks(a) + Marks(b)
  {
    if a == [] {
      assert a + b == b;
    } else {
      assert (a + b)[0] == a[0] && (a + b)[1..] == a[1..] + b;
      MarksConcat(a[1..], b);
    }
  }

  /** Past one token: a `?` takes the first parameter, anything else leaves the list alone. */
  lemma BindTextStep(t: Token, rest: seq<Token>, ps: seq<Slot>)
    requires t.Mark? ==> ps != []
    ensures Marks([t] + rest) == (if t.Mark? then 1 else 0) + Marks(rest)
    ensures t.Mark? ==> BindText([t] + rest, ps) == [Constant(ps[0].value)] + BindText(rest, ps[1..])
    ensures !t.Mark? ==> BindText([t] + rest, ps) == [t] + BindText(rest, ps)
  {
    assert ([t] + rest)[1..] == rest;
  }

  lemma Prepended(t: Token, x: seq<Token>, y: seq<Token>)
    ensures [t] + (x + y) == [t] + x + y
  {}

  lemma MarkedStep(t: Token, rest: seq<Token>, b: seq<Token>, ps: seq<Slot>, n: nat)
    requires t.Mark? && n + 1 <= |ps|
    requires BindText(rest + b, ps[1..]) == BindText(rest, ps[1..][..n]) + BindText(b, ps[1..][n..])
    ensures BindText([t] + (rest + b), ps) == BindText([t] + rest, ps[..n + 1]) + BindText(b, ps[n + 1..])
  {
    BindTextStep(t, rest + b, ps);
    BindTextStep(t, rest, ps[..n + 1]);
    hide BindText;
    assert ps[1..][..n] == ps[..n + 1][1..];
    assert ps[1..][n..] == ps[n + 1..];
    Prepended(Constant(ps[0].value), BindText(rest, ps[1..][..n]), BindText(b, ps[n + 1..]));
  }

  lemma PlainStep(t: Token, rest: seq<Token>, b: seq<Token>, ps: seq<Slot>, n: nat)
    requires !t.Mark? && n <= |ps|
    requires BindText(rest + b, ps) == BindText(rest, ps[..n]) + BindText(b, ps[n..])
    ensures BindText([t] + (rest + b), ps) == BindText([t] + rest, ps[..n]) + BindText(b, ps[n..])
  {
    hide BindText;
    BindTextStep(t, rest + b, ps);
    BindTextStep(t, rest, ps[..n]);
    Prepended(t, BindText(rest, ps[..n]), BindText(b, ps[n..]));
  }

  lemma {:induction false} BindTextConcat(a: seq<Token>, b: seq<Token>, ps: seq<Slot>)
    requires Marks(a) <= |ps|
    ensures BindText(a + b, ps) == BindText(a, ps[..Marks(a)]) + BindText(b, ps[Marks(a)..])
  {
    if a == [] {
      assert a + b == b && ps[0..] == ps;
    } else {
      var t, rest := a[0], a[1..];
      var n := Marks(rest);
      hide BindText;
      assert a == [t] + rest && a + b == [t] + (rest + b);
      if t.Mark? {
        BindTextConcat(rest, b, ps[1..]);
        MarkedStep(t, rest, b, ps, n);
      } else {
        BindTextConcat(rest, b, ps);
        PlainStep(t, rest, b, ps, n);
      }
    }
  }

  /** What the two binders have to agree on for a printed piece `before` that becomes `after`. */
  ghost predicate Agrees(before: seq<Token>, after: seq<Token>, ps: seq<Slot>) {
    Marks(before) == |ps| && BindText(before, ps) == after
  }

  lemma AgreesConcat(a: seq<Token>, a': seq<Token>, b: seq<Token>, b': seq<Token>, ps: seq<Slot>, k: nat)
    requires k <= |ps| && Agrees(a, a', ps[..k]) && Agrees(b, b', ps[k..])
    ensures Agrees(a + b, a' + b', ps)
  {
    MarksConcat(a, b);
    BindTextConcat(a, b, ps);
  }

  lemma AgreesPlain(ts: seq<Token>)
    requires forall t | t in ts :: !t.Mark?
    ensures Agrees(ts, ts, [])
  {
    if ts != [] { AgreesPlain(ts[1..]); }
  }

  /** Fixed text on either side changes nothing. */
  lemma AgreesWrapped(left: seq<Token>, a: seq<Token>, a': seq<Token>, right: seq<Token>, ps: seq<Slot>)
    requires forall t | t in left + right :: !t.Mark?
    requires Agrees(a, a', ps)
    ensures Agrees(left + a + right, left + a' + right, ps)
  {
    AgreesPlain(left);
    AgreesPlain(right);
    assert ps[..0] == [] && ps[0..] == ps && ps[..|ps|] == ps && ps[|ps|..] == [];
    AgreesConcat(left, left, a, a', ps, 0);
    AgreesConcat(left + a, left + a', right, right, ps, |ps|);
  }

  lemma {:induction false} RenderBound(e: Expr, ps: seq<Slot>)
    requires |ps| == |Intended(e)|
    ensures Agrees(Render(e), Render(Bind(e, ps)), ps)
    decreases e
  {
    if e.Apply? {
      RenderArgsBound(e.fn, e.args, 0, ps);
    } else if e.Placeholder? {
      assert BindText([Mark], ps) == [Constant(ps[0].value)] + BindText([], ps[1..]);
      assert Marks([Mark]) == 1;
    } else {
      AgreesPlain(Render(e));
    }
  }

  lemma {:induction false} RenderArgsBound(fn: Function, args: seq<Expr>, k: nat, ps: seq<Slot>)
    requires |ps| == |IntendedAll(args)|
    ensures Agrees(RenderArgs(fn, args, k), RenderArgs(fn, BindAll(args, ps), k), ps)
    decreases args
  {
    hide Agrees;
    var head := [Around(fn, k)];
    if args == [] {
      AgreesPlain(head);
    } else {
      var i := |Intended(args[0])|;
      RenderBound(args[0], ps[..i]);
      RenderArgsBound(fn, args[1..], k + 1, ps[i..]);
      var bound := BindAll(args, ps);
      assert bound[0] == Bind(args[0], ps[..i]) && bound[1..] == BindAll(args[1..], ps[i..]);
      AgreesWrapped(head, Render(args[0]), Render(bound[0]), [], ps[..i]);
      assert head + Render(args[0]) + [] == head + Render(args[0]);
      assert head + Render(bound[0]) + [] == head + Render(bound[0]);
      AgreesConcat(head + Render(args[0]), head + Render(bound[0]),
                   RenderArgs(fn, args[1..], k + 1), RenderArgs(fn, bound[1..], k + 1), ps, i);
    }
  }

  lemma PlainNames(names: seq<string>)
    ensures forall t | t in RenderNames(names) :: !t.Mark?
  {}

  lemma PlainKeys(keys: seq<SortKey>)
    ensures forall t | t in RenderKeys(keys) :: !t.Mark?
  {}

  lemma {:induction false} RenderReplacementsBound(items: seq<Replacement>, ps: seq<Slot>)
    requires |ps| == |IntendedReplacements(items)|
    ensures Agrees(RenderReplacements(items), RenderReplacements(BindReplacements(items, ps)), ps)
  {
    hide Agrees;
    if items == [] {
      AgreesPlain([]);
    } else {
      var i := |Intended(items[0].expr)|;
      var bound := BindReplacements(items, ps);
      var tail := [Word(As), Name(items[0].column)];
      RenderBound(items[0].expr, ps[..i]);
      RenderReplacementsBound(items[1..], ps[i..]);
      assert bound[1..] == BindReplacements(items[1..], ps[i..]);
      AgreesWrapped([], Render(items[0].expr), Render(bound[0].expr), tail, ps[..i]);
      AgreesConcat([] + Render(items[0].expr) + tail, [] + Render(bound[0].expr) + tail,
                   RenderReplacements(items[1..]), RenderReplacements(bound[1..]), ps, i);
      assert [] + Render(items[0].expr) + tail == Render(items[0].expr) + tail;
      assert [] + Render(bound[0].expr) + tail == Render(bound[0].expr) + tail;
    }
  }

  lemma {:induction false} RenderAggregatesBound(items: seq<AggregateItem>, ps: seq<Slot>)
    requires |ps| == |IntendedAggregates(items)|
    ensures Agrees(RenderAggregates(items), RenderAggregates(BindAggregates(items, ps)), ps)
  {
    hide Agrees;
    if items == [] {
      AgreesPlain([]);
    } else {
      var i := |Intended(items[0].argument)|;
      var bound := BindAggregates(items, ps);
      var tail := [Word(As), Name(items[0].output)];
      RenderBound(items[0].argument, ps[..i]);
      RenderAggregatesBound(items[1..], ps[i..]);
      assert bound[1..] == BindAggregates(items[1..], ps[i..]);
      AgreesWrapped([], Render(items[0].argument), Render(bound[0].argument), tail, ps[..i]);
      AgreesConcat([] + Render(items[0].argument) + tail, [] + Render(bound[0].argument) + tail,
                   RenderAggregates(items[1..]), RenderAggregates(bound[1..]), ps, i);
      assert [] + Render(items[0].argument) + tail == Render(items[0].argument) + tail;
      assert [] + Render(bound[0].argument) + tail == Render(bound[0].argument) + tail;
    }
  }

  lemma RenderListBound(list: SelectList, ps: seq<Slot>)
    requires |ps| == |IntendedList(list)|
    ensures Agrees(RenderList(list), RenderList(BindList(list, ps)), ps)
  {
    match list
    case Replace(items) =>
      RenderReplacementsBound(items, ps);
      AgreesWrapped([Word(SelectReplace)], RenderReplacements(items),
                    RenderReplacements(BindReplacements(items, ps)), [Word(CloseReplace)], ps);
    case Aggregates(groups, items) =>
      RenderAggregatesBound(items, ps);
      PlainNames(groups);
      var head, text, bound := [Word(SelectKeyword)] + RenderNames(groups), RenderAggregates(items), RenderAggregates(BindAggregates(items, ps));
      AgreesWrapped(head, text, bound, [], ps);
      assert head + text + [] == RenderList(list) && head + bound + [] == RenderList(BindList(list, ps));
    case Columns(names) =>
      PlainNames(names);
      AgreesPlain(RenderList(list));
    case Star =>
      AgreesPlain(RenderList(list));
  }

  lemma RenderSuffixBound(list: SelectList, bound: SelectList, suffix: Suffix, ps: seq<Slot>)
    requires |ps| == |IntendedSuffix(suffix)|
    requires bound.Aggregates? <==> list.Aggregates?
    requires list.Aggregates? ==> bound.groups == list.groups
    ensures Agrees(RenderSuffix(list, suffix), RenderSuffix(bound, BindSuffix(suffix, ps)), ps)
  {
    match suffix
    case NoSuffix =>
      if list.Aggregates? { PlainNames(list.groups); }
      AgreesPlain(RenderSuffix(list, suffix));
    case OrderBy(keys) =>
      PlainKeys(keys);
      AgreesPlain(RenderSuffix(list, suffix));
    case Where(condition) =>
      RenderBound(condition, ps);
      var text, after := Render(condition), Render(Bind(condition, ps));
      AgreesWrapped([Word(WhereKeyword)], text, after, [], ps);
      assert [Word(WhereKeyword)] + text + [] == [Word(WhereKeyword)] + text;
      assert [Word(WhereKeyword)] + after + [] == [Word(WhereKeyword)] + after;
    case LimitTo(count) =>
      RenderBound(count, ps);
      var text, after := Render(count), Render(Bind(count, ps));
      AgreesWrapped([Word(LimitKeyword)], text, after, [], ps);
      assert [Word(LimitKeyword)] + text + [] == [Word(LimitKeyword)] + text;
      assert [Word(LimitKeyword)] + after + [] == [Word(LimitKeyword)] + after;
  }

  lemma AgreesThree(a: seq<Token>, a': seq<Token>, b: seq<Token>, b': seq<Token>, c: seq<Token>, c': seq<Token>,
                    ps: seq<Slot>, i: nat, j: nat)
    requires i <= j <= |ps|
    requires Agrees(a, a', ps[..i]) && Agrees(b, b', ps[i..j]) && Agrees(c, c', ps[j..])
    ensures Agrees(a + b + c, a' + b' + c', ps)
  {
    assert ps[..j][..i] == ps[..i] && ps[..j][i..] == ps[i..j];
    AgreesConcat(a, a', b, b', ps[..j], i);
    AgreesConcat(a + b, a' + b', c, c', ps, j);
  }

  /** Three pieces with fixed text between them. */
  lemma AgreesSandwich(a: seq<Token>, a': seq<Token>, open: Phrase, b: seq<Token>, b': seq<Token>, close: Phrase,
                       c: seq<Token>, c': seq<Token>, ps: seq<Slot>, i: nat, j: nat)
    requires i <= j <= |ps|
    requires Agrees(a, a', ps[..i]) && Agrees(b, b', ps[i..j]) && Agrees(c, c', ps[j..])
    ensures Agrees(a + [Word(open)] + b + [Word(close)] + c, a' + [Word(open)] + b' + [Word(close)] + c', ps)
  {
    var x, y := [Word(open)], [Word(close)];
    AgreesWrapped(x, b, b', y, ps[i..j]);
    AgreesThree(a, a', x + b + y, x + b' + y, c, c', ps, i, j);
    assert a + (x + b + y) + c == a + x + b + y + c;
    assert a' + (x + b' + y) + c' == a' + x + b' + y + c';
  }

  lemma AgreesPrefixed(head: Phrase, a: seq<Token>, a': seq<Token>, ps: seq<Slot>)
    requires Agrees(a, a', ps)
    ensures Agrees([Word(head)] + a, [Word(head)] + a', ps)
  {
    AgreesWrapped([Word(head)], a, a', [], ps);
    assert [Word(head)] + a + [] == [Word(head)] + a && [Word(head)] + a' + [] == [Word(head)] + a';
  }

  lemma BaseAgrees(table: string)
    ensures Agrees(RenderQuery(Base(table)), RenderQuery(Base(table)), [])
  {
    AgreesPlain(RenderQuery(Base(table)));
  }

  lemma JoinTextAgrees(a: seq<Token>, a': seq<Token>, open: Phrase, b: seq<Token>, b': seq<Token>, close: Phrase,
                       c: seq<Token>, c': seq<Token>, ps: seq<Slot>, i: nat, j: nat)
    requires i <= j <= |ps|
    requires Agrees(a, a', ps[..i]) && Agrees(b, b', ps[i..j]) && Agrees(c, c', ps[j..])
    ensures Agrees([Word(SelectBothSides)] + a + [Word(open)] + b + [Word(close)] + c,
                   [Word(SelectBothSides)] + a' + [Word(open)] + b' + [Word(close)] + c', ps)
  {
    hide Agrees;
    AgreesPrefixed(SelectBothSides, a, a', ps[..i]);
    AgreesSandwich([Word(SelectBothSides)] + a, [Word(SelectBothSides)] + a', open, b, b', close, c, c', ps, i, j);
  }

  lemma JoinText(outer: bool, left: Query, right: Query, on: Expr)
    ensures RenderQuery(JoinOn(outer, left, right, on))
            == [Word(SelectBothSides)] + RenderQuery(left) + [Word(AsLeftRelJoin(outer))] + RenderQuery(right)
               + [Word(AsRightRelOn)] + Render(on)
  {
    hide Render;
  }

  lemma JoinAgrees(outer: bool, left: Query, left': Query, right: Query, right': Query, on: Expr, on': Expr,
                   ps: seq<Slot>, i: nat, j: nat)
    requires i <= j <= |ps|
    requires Agrees(RenderQuery(left), RenderQuery(left'), ps[..i])
    requires Agrees(RenderQuery(right), RenderQuery(right'), ps[i..j])
    requires Agrees(Render(on), Render(on'), ps[j..])
    ensures Agrees(RenderQuery(JoinOn(outer, left, right, on)), RenderQuery(JoinOn(outer, left', right', on')), ps)
  {
    hide Agrees, Render, RenderQuery;
    JoinText(outer, left, right, on);
    JoinText(outer, left', right', on');
    JoinTextAgrees(RenderQuery(left), RenderQuery(left'), AsLeftRelJoin(outer), RenderQuery(right), RenderQuery(right'),
                   AsRightRelOn, Render(on), Render(on'), ps, i, j);
  }

  lemma WithText(name: string, definition: Query, body: Query)
    ensures RenderQuery(With(name, definition, body))
            == [Word(WithKeyword), Name(name), Word(AsMaterialized)] + RenderQuery(definition) + [Word(CloseMaterialized)] + RenderQuery(body)
  {}

  lemma WithAgrees(name: string, definition: Query, definition': Query, body: Query, body': Query, ps: seq<Slot>, i: nat)
    requires i <= |ps|
    requires Agrees(RenderQuery(definition), RenderQuery(definition'), ps[..i])
    requires Agrees(RenderQuery(body), RenderQuery(body'), ps[i..])
    ensures Agrees(RenderQuery(With(name, definition, body)), RenderQuery(With(name, definition', body')), ps)
  {
    hide Agrees, RenderQuery;
    WithText(name, definition, body);
    WithText(name, definition', body');
    var open, close := [Word(WithKeyword), Name(name), Word(AsMaterialized)], [Word(CloseMaterialized)];
    AgreesWrapped(open, RenderQuery(definition), RenderQuery(definition'), close, ps[..i]);
    AgreesConcat(open + RenderQuery(definition) + close, open + RenderQuery(definition') + close,
                 RenderQuery(body), RenderQuery(body'), ps, i);
  }

  lemma SelectText(list: SelectList, from: Query, suffix: Suffix)
    ensures RenderQuery(Select(list, from, suffix))
            == RenderList(list) + [Word(FromOpen)] + RenderQuery(from) + [Word(AsInputRel)] + RenderSuffix(list, suffix)
  {
    hide RenderList, RenderSuffix;
  }

  lemma SelectAgrees(list: SelectList, list': SelectList, from: Query, from': Query, suffix: Suffix, suffix': Suffix,
                     ps: seq<Slot>, i: nat, j: nat)
    requires i <= j <= |ps|
    requires Agrees(RenderList(list), RenderList(list'), ps[..i])
    requires Agrees(RenderQuery(from), RenderQuery(from'), ps[i..j])
    requires Agrees(RenderSuffix(list, suffix), RenderSuffix(list', suffix'), ps[j..])
    ensures Agrees(RenderQuery(Select(list, from, suffix)), RenderQuery(Select(list', from', suffix')), ps)
  {
    hide Agrees, RenderQuery, RenderList, RenderSuffix;
    SelectText(list, from, suffix);
    SelectText(list', from', suffix');
    AgreesSandwich(RenderList(list), RenderList(list'), FromOpen, RenderQuery(from), RenderQuery(from'), AsInputRel,
                   RenderSuffix(list, suffix), RenderSuffix(list', suffix'), ps, i, j);
  }

  /** Binding the tree and binding the printed text left to right give the same statement. */
  lemma {:induction false} BindingIsTextual(q: Query, ps: seq<Slot>)
    requires Accepts(q, ps)
    ensures Agrees(RenderQuery(q), RenderQuery(BindQuery(q, ps)), ps)
  {
    hide Agrees, RenderQuery, RenderList, RenderSuffix, Render, BindSuffix, Bind;
    match q
    case Base(table) =>
      BaseAgrees(table);
    case Select(list, from, suffix) =>
      var i, j := |IntendedList(list)|, |IntendedList(list)| + |IntendedQuery(from)|;
      var list' := BindList(list, ps[..i]);
      RenderListBound(list, ps[..i]);
      BindingIsTextual(from, ps[i..j]);
      RenderSuffixBound(list, list', suffix, ps[j..]);
      SelectAgrees(list, list', from, BindQuery(from, ps[i..j]), suffix, BindSuffix(suffix, ps[j..]), ps, i, j);
    case JoinOn(outer, left, right, on) =>
      var i, j := |IntendedQuery(left)|, |IntendedQuery(left)| + |IntendedQuery(right)|;
      BindingIsTextual(left, ps[..i]);
      BindingIsTextual(right, ps[i..j]);
      RenderBound(on, ps[j..]);
      JoinAgrees(outer, left, BindQuery(left, ps[..i]), right, BindQuery(right, ps[i..j]), on, Bind(on, ps[j..]), ps, i, j);
    case With(name, definition, body) =>
      var i := |IntendedQuery(definition)|;
      BindingIsTextual(definition, ps[..i]);
      BindingIsTextual(body, ps[i..]);
      WithAgrees(name, definition, BindQuery(definition, ps[..i]), body, BindQuery(body, ps[i..]), ps, i);
  }
}
