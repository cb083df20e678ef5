/** `CreateOrder` and `FindOrder` as they run against the primary. */
module OrderRepository {
  import opened Ordering
  import opened Rows
  import opened Orders
  import opened Database
  import opened Cart
  import opened Text
  import Reads = OrderReads
  import TP = TwoPhase

  /** `Fault` is any failure of the database itself. */
  datatype CreateError = EmptyCart | InsufficientStock | BadQuantity | Fault

  datatype Created = Created(id: nat, user: nat, total: int, createdAt: nat, items: seq<Line>)

  datatype Result = Ok(order: Created) | Err(error: CreateError)

  predicate CoversLine(t: Table, l: Line) {
    KStock(l.product) in t && t[KStock(l.product)].RStock? && t[KStock(l.product)].stock >= l.quantity
  }

  /** Every line's quantity is covered by the product's stock row. */
  predicate Covered(t: Table, lines: seq<Line>) {
    forall l | l in lines :: CoversLine(t, l)
  }

  // ----- The multi-row insert: placeholders and arguments -----

  datatype Arg = Ref(id: nat) | Num(value: int)

  const PLACEHOLDER := "(?, ?, ?, ?)"

  function Args(order: nat, lines: seq<Line>): seq<Arg> {
    if lines == [] then [] else
      Args(order, lines[..|lines| - 1])
      + [Ref(order), Ref(lines[|lines| - 1].product), Num(lines[|lines| - 1].quantity),
          Num(lines[|lines| - 1].unitPrice)]
  }

  /** How the server binds a flat argument list to rows of four columns. */
  function Bind(args: seq<Arg>): seq<(Arg, Arg, Arg, Arg)> {
    if |args| < 4 then [] else [(args[0], args[1], args[2], args[3])] + Bind(args[4..])
  }

  function Row4(order: nat, l: Line): (Arg, Arg, Arg, Arg) {
    (Ref(order), Ref(l.product), Num(l.quantity), Num(l.unitPrice))
  }

  lemma {:induction false} BindSplit(a: seq<Arg>, b: seq<Arg>)
    requires |a| % 4 == 0
    ensures Bind(a + b) == Bind(a) + Bind(b)
    decreases |a|
  {
    if a == [] {
      assert a + b == b;
    } else {
      assert (a + b)[4..] == a[4..] + b;
      BindSplit(a[4..], b);
    }
  }

  /** The arguments bind back to the cart rows, one row of four per line and in the same order. */
  lemma {:induction false} ArgsBindBack(order: nat, lines: seq<Line>)
    ensures |Args(order, lines)| == 4 * |lines|
    ensures |Bind(Args(order, lines))| == |lines|
    ensures forall i | 0 <= i < |lines| :: Bind(Args(order, lines))[i] == Row4(order, lines[i])
  {
    if lines != [] {
      var front, last := lines[..|lines| - 1], lines[|lines| - 1];
      ArgsBindBack(order, front);
      BindSplit(Args(order, front), [Ref(order), Ref(last.product), Num(last.quantity), Num(last.unitPrice)]);
      forall i | 0 <= i < |lines| - 1 ensures Bind(Args(order, lines))[i] == Row4(order, lines[i]) {
        assert Bind(Args(order, lines))[i] == Bind(Args(order, front))[i];
      }
    }
  }

  /** Half a placeholder: "(?, ?," or " ?, ?)". */
  predicate TwoMarksAt(s: string, i: nat) {
    && i + 6 <= |s|
    && s[i] != '?' && s[i + 1] == '?' && s[i + 2] != '?'
    && s[i + 3] != '?' && s[i + 4] == '?' && s[i + 5] != '?'
  }

  lemma TwoMarks(s: string, i: nat)
    requires TwoMarksAt(s, i)
    ensures Count(s[i..], '?') == 2 + Count(s[i + 6..], '?')
  {
    CountFrom(s, i, '?');
    CountFrom(s, i + 1, '?');
    CountFrom(s, i + 2, '?');
    CountFrom(s, i + 3, '?');
    CountFrom(s, i + 4, '?');
    CountFrom(s, i + 5, '?');
  }

  lemma FourMarks(s: string)
    requires |s| == 12 && TwoMarksAt(s, 0) && TwoMarksAt(s, 6)
    ensures Count(s, '?') == 4
  {
    assert s[0..] == s;
    TwoMarks(s, 0);
    TwoMarks(s, 6);
  }

  lemma NoMark()
    ensures Count(", ", '?') == 0
  {
    assert ", "[1..] == " " && " "[1..] == "";
  }

  lemma {:induction false} MarksOfCopies(copies: seq<string>, mark: string)
    requires Count(mark, '?') == 4 && forall s | s in copies :: s == mark
    ensures Count(Join(copies, ", "), '?') == 4 * |copies|
  {
    NoMark();
    if |copies| == 1 {
      assert copies[0] in copies;
    } else if copies != [] {
      assert copies[0] in copies;
      forall s | s in copies[1..] ensures s == mark {
        assert s in copies;
      }
      MarksOfCopies(copies[1..], mark);
      CountConcat(copies[0] + ", ", Join(copies[1..], ", "), '?');
      CountConcat(copies[0], ", ", '?');
    }
  }

  /** The joined placeholders hold one mark per argument. */
  lemma {:induction false} MarksOf(placeholders: seq<string>)
    requires forall s | s in placeholders :: s == PLACEHOLDER
    ensures Count(Join(placeholders, ", "), '?') == 4 * |placeholders|
  {
    FourMarks(PLACEHOLDER);
    MarksOfCopies(placeholders, PLACEHOLDER);
  }

  // ----- One transaction in progress -----

  /** `s` is `s0` plus transaction `t` alone having moved; rolling `t` back gives `s0` again. */
  ghost predicate Underway(s0: TP.Store, s: TP.Store, t: nat) {
    && t in s.txns && t !in s0.txns && s.txns - {t} == s0.txns && s.log == s0.log
    && TP.Rollback(s, t) == s0
    && Run(s0.live, s.txns[t].done) == Some(s.live)
  }

  lemma BeginUnderway(s0: TP.Store, t: nat)
    requires t !in s0.txns
    ensures Underway(s0, TP.Begin(s0, t), t)
  {
    TP.RollbackOfNothing(s0, t);
    assert TP.Begin(s0, t).txns - {t} == s0.txns;
  }

  lemma ExecUnderway(s0: TP.Store, s: TP.Store, t: nat, stmt: Stmt)
    requires Underway(s0, s, t) && TP.CanExec(s, t, stmt)
    ensures Underway(s0, TP.ExecIn(s, t, stmt), t)
    ensures TP.ExecIn(s, t, stmt).txns[t].done == s.txns[t].done + [stmt]
  {
    TP.RollbackUndoes(s, t, stmt);
    var done := s.txns[t].done;
    assert (done + [stmt])[..|done|] == done;
    assert TP.ExecIn(s, t, stmt).txns - {t} == s.txns - {t};
  }

  method Send(db: Primary, ghost s0: TP.Store, t: nat, stmt: Stmt) returns (r: Outcome)
    requires Underway(s0, db.store, t)
    modifies db`store, db`calls
    ensures Underway(s0, db.store, t)
    ensures db.calls >= old(db.calls)
    ensures r.Faulted? && old(db.Healthy()) ==> Blocked(s0, stmt)
    ensures r.Done? ==> db.store.txns[t].done == old(db.store).txns[t].done + [stmt]
    ensures !r.Done? ==> db.store == old(db.store)
    ensures r.Refused? ==> Exec(stmt, db.store.live).None?
    ensures r.Done? ==> Exec(stmt, old(db.store).live) == Some(db.store.live)
  {
    UnlockedUnlessBlocked(s0, db.store, t, stmt);
    r := db.Exec(t, stmt);
    if r.Done? {
      ExecUnderway(s0, old(db.store), t, stmt);
    }
  }

  /** The statement text carries one mark per argument; the server binds them row by row. */
  method SendItems(db: Primary, ghost s0: TP.Store, t: nat, values: string, args: seq<Arg>, order: nat,
        ghost lines: seq<Line>)
    returns (r: Outcome)
    requires Underway(s0, db.store, t) && Count(values, '?') == |args|
    requires |Bind(args)| == |lines| && forall i | 0 <= i < |lines| :: Bind(args)[i] == Row4(order, lines[i])
    modifies db`store, db`calls
    ensures Underway(s0, db.store, t)
    ensures db.calls >= old(db.calls)
    ensures r.Faulted? && old(db.Healthy()) ==> Blocked(s0, InsertItems(order, lines))
    ensures r.Done? ==> db.store.txns[t].done == old(db.store).txns[t].done + [InsertItems(order, lines)]
    ensures !r.Done? ==> db.store == old(db.store)
    ensures r.Refused? ==> Exec(InsertItems(order, lines), db.store.live).None?
  {
    var rows := Bind(args);
    var bound: seq<Line> := seq(|rows|, i requires 0 <= i < |rows| && rows[i].1.Ref? && rows[i].2.Num?
        && rows[i].3.Num? =>
      Line(rows[i].1.id, rows[i].2.value, rows[i].3.value));
    assert bound == lines;
    r := Send(db, s0, t, InsertItems(order, bound));
  }

  /** One insert for all rows; without rows there is nothing to send. */
  method InsertOrderItems(db: Primary, ghost s0: TP.Store, t: nat, order: nat, lines: seq<Line>) returns (r: Outcome)
    requires Underway(s0, db.store, t)
    modifies db`store, db`calls
    ensures Underway(s0, db.store, t)
    ensures db.calls >= old(db.calls)
    ensures lines == [] ==> r.Done? && db.store == old(db.store) && db.calls == old(db.calls)
    ensures r.Faulted? && old(db.Healthy()) ==> Blocked(s0, InsertItems(order, lines))
    ensures r.Done? && lines != [] ==>
      db.store.txns[t].done == old(db.store).txns[t].done + [InsertItems(order, lines)]
    ensures !r.Done? ==> db.store == old(db.store)
    ensures r.Refused? ==> Exec(InsertItems(order, lines), db.store.live).None?
  {
    if |lines| == 0 {
      return Done;
    }
    var placeholders: seq<string>, args: seq<Arg> := [], [];
    for i := 0 to |lines|
      invariant |placeholders| == i && forall s | s in placeholders :: s == PLACEHOLDER
      invariant args == Args(order, lines[..i])
    {
      placeholders := placeholders + [PLACEHOLDER];
      assert lines[..i + 1][..i] == lines[..i];
      args := args + [Ref(order), Ref(lines[i].product), Num(lines[i].quantity), Num(lines[i].unitPrice)];
    }
    assert lines[..|lines|] == lines;
    ArgsBindBack(order, lines);
    MarksOf(placeholders);
    r := SendItems(db, s0, t, Join(placeholders, ", "), args, order, lines);
  }

  method ReserveStock(db: Primary, ghost s0: TP.Store, t: nat, product: nat, qty: int)
    returns (err: Option<CreateError>)
    requires Underway(s0, db.store, t)
    modifies db`store, db`calls
    ensures Underway(s0, db.store, t)
    ensures db.calls >= old(db.calls)
    ensures err == Some(Fault) && old(db.Healthy()) ==> Blocked(s0, Reserve(product, qty))
    ensures err.None? ==> db.store.txns[t].done == old(db.store).txns[t].done + [Reserve(product, qty)]
    ensures err.None? ==> Exec(Reserve(product, qty), old(db.store).live) == Some(db.store.live)
    ensures err.Some? ==> db.store == old(db.store)
    ensures err == Some(BadQuantity) <==> qty <= 0
    ensures err == Some(InsufficientStock) ==> Exec(Reserve(product, qty), db.store.live).None?
    ensures err.Some? ==> err.value in {BadQuantity, InsufficientStock, Fault}
  {
    if qty <= 0 {
      return Some(BadQuantity);
    }
    var r := Send(db, s0, t, Reserve(product, qty));
    err := match r case Done => None case Refused => Some(InsufficientStock) case Faulted => Some(Fault);
  }

  // ----- Why nothing but stock can stop an order that runs alone -----

  lemma {:induction false} AddItemsSucceeds(t: Table, o: nat, lines: seq<Line>)
    requires DistinctProducts(lines) && forall l | l in lines :: KItem(o, l.product) !in t
    ensures AddItems(t, o, lines).Some?
    decreases |lines|
  {
    if lines != [] {
      assert lines[0] in lines;
      forall l | l in lines[1..] ensures l in lines && l.product != lines[0].product {
        var i :| 0 <= i < |lines| - 1 && lines[1..][i] == l;
        assert lines[i + 1] == l;
      }
      AddItemsSucceeds(t[KItem(o, lines[0].product) := RItem(lines[0].quantity, lines[0].unitPrice)], o, lines[1..]);
    }
  }

  /** No statement of a prefix of the program names the stock row of a line still to come. */
  lemma LaterStockUntouched(t: Table, o: Order, i: nat)
    requires i < |o.lines| && DistinctProducts(o.lines)
    requires Run(t, Head(o) + Reserves(o.lines[..i])).Some?
    ensures Get(Run(t, Head(o) + Reserves(o.lines[..i])).value, KStock(o.lines[i].product)) ==
        Get(t, KStock(o.lines[i].product))
  {
    var stmts := Head(o) + Reserves(o.lines[..i]);
    forall k | 0 <= k < |stmts| ensures KStock(o.lines[i].product) !in Keys(stmts[k]) {
      if k >= 2 {
        assert stmts[k] == Reserve(o.lines[k - 2].product, o.lines[k - 2].quantity);
      }
    }
    RunFrame(t, stmts, KStock(o.lines[i].product));
  }

  lemma TailRowsUntouched(t: Table, o: Order, k: Key)
    requires k.KEvent? || k.KDay?
    requires Run(t, Head(o) + Reserves(o.lines) + [ClearCart(o.user)]).Some?
    ensures Get(Run(t, Head(o) + Reserves(o.lines) + [ClearCart(o.user)]).value, k) == Get(t, k)
  {
    RunFrame(t, Head(o) + Reserves(o.lines) + [ClearCart(o.user)], k);
  }

  /** Another transaction holds a row that one of the order's statements needs. */
  ghost predicate Contended(s0: TP.Store, o: Order) {
    exists k | 0 <= k < |Program(o)| :: Blocked(s0, Program(o)[k])
  }

  /** Inserts the order row and its items. */
  method SendHead(db: Primary, ghost s0: TP.Store, t: nat, o: Order) returns (err: Option<CreateError>)
    requires Underway(s0, db.store, t) && db.store.txns[t].done == [] && o.lines != [] && DistinctProducts(o.lines)
    requires forall p: nat :: KItem(o.id, p) !in s0.live
    requires KOrder(o.id) !in s0.live
    modifies db`store, db`calls
    ensures Underway(s0, db.store, t)
    ensures db.calls >= old(db.calls)
    ensures err == Some(Fault) && old(db.Healthy()) ==> Contended(s0, o)
    ensures err.None? ==> db.store.txns[t].done == Head(o)
    ensures err.None? || err == Some(Fault)
  {
    assert db.store.live == s0.live;
    assert Program(o)[0] == Head(o)[0] && Program(o)[1] == Head(o)[1];
    var r := Send(db, s0, t, InsertOrder(o.id, o.user, Total(o.lines), o.now));
    if !r.Done? {
      return Some(Fault);
    }
    ExecLocal(InsertOrder(o.id, o.user, Total(o.lines), o.now), s0.live, s0.live);
    forall l | l in o.lines ensures KItem(o.id, l.product) !in db.store.live {
      assert Get(db.store.live, KItem(o.id, l.product)) == Get(s0.live, KItem(o.id, l.product));
    }
    AddItemsSucceeds(db.store.live, o.id, o.lines);
    r := InsertOrderItems(db, s0, t, o.id, o.lines);
    err := if r.Done? then None else Some(Fault);
  }

  /** Reserves line `i`; whether stock covers it is still what it was before the transaction began. */
  method SendReserve(db: Primary, ghost s0: TP.Store, t: nat, o: Order, i: nat) returns (err: Option<CreateError>)
    requires i < |o.lines| && DistinctProducts(o.lines)
    requires Underway(s0, db.store, t) && db.store.txns[t].done == Head(o) + Reserves(o.lines[..i])
    modifies db`store, db`calls
    ensures Underway(s0, db.store, t)
    ensures db.calls >= old(db.calls)
    ensures err == Some(Fault) && old(db.Healthy()) ==> Contended(s0, o)
    ensures err.None? ==> db.store.txns[t].done == Head(o) + Reserves(o.lines[..i + 1])
    ensures err.None? ==> CoversLine(s0.live, o.lines[i])
    ensures err == Some(InsufficientStock) ==> !CoversLine(s0.live, o.lines[i])
    ensures err == Some(BadQuantity) ==> o.lines[i].quantity <= 0
    ensures err.Some? ==> err.value in {BadQuantity, InsufficientStock, Fault}
  {
    var l := o.lines[i];
    assert Program(o)[i + 2] == Reserve(l.product, l.quantity);
    LaterStockUntouched(s0.live, o, i);
    assert Get(db.store.live, KStock(l.product)) == Get(s0.live, KStock(l.product));
    err := ReserveStock(db, s0, t, l.product, l.quantity);
    assert Head(o) + Reserves(o.lines[..i + 1]) == Head(o) + Reserves(o.lines[..i]) + [Reserve(l.product, l.quantity)];
  }

  /** Reserves every line, in cart order, stopping at the first that fails. */
  method SendReserves(db: Primary, ghost s0: TP.Store, t: nat, o: Order) returns (err: Option<CreateError>)
    requires Underway(s0, db.store, t) && db.store.txns[t].done == Head(o) && DistinctProducts(o.lines)
    modifies db`store, db`calls
    ensures Underway(s0, db.store, t)
    ensures db.calls >= old(db.calls)
    ensures err == Some(Fault) && old(db.Healthy()) ==> Contended(s0, o)
    ensures err.None? ==> db.store.txns[t].done == Head(o) + Reserves(o.lines)
    ensures err.None? ==> Covered(s0.live, o.lines)
    ensures err == Some(InsufficientStock) ==> !Covered(s0.live, o.lines)
    ensures err == Some(BadQuantity) ==> exists l | l in o.lines :: l.quantity <= 0
    ensures err.Some? ==> err.value in {BadQuantity, InsufficientStock, Fault}
  {
    assert Head(o) + Reserves(o.lines[..0]) == Head(o);
    for i := 0 to |o.lines|
      invariant Underway(s0, db.store, t)
      invariant db.store.txns[t].done == Head(o) + Reserves(o.lines[..i])
      invariant forall k | 0 <= k < i :: CoversLine(s0.live, o.lines[k])
      invariant db.calls >= old(db.calls)
    {
      err := SendReserve(db, s0, t, o, i);
      if err.Some? {
        assert o.lines[i] in o.lines;
        return;
      }
    }
    assert o.lines[..|o.lines|] == o.lines;
    err := None;
  }

  lemma TailOfProgram(o: Order)
    ensures var n := |o.lines| + 2;
      Program(o)[n] == Tail(o)[0] && Program(o)[n + 1] == Tail(o)[1] && Program(o)[n + 2] == Tail(o)[2]
    ensures Head(o) + Reserves(o.lines) + [Tail(o)[0]] + [Tail(o)[1]] + [Tail(o)[2]] == Program(o)
  {
  }

  /** Clears the cart, writes the outbox event and adds to the day's summary. */
  method SendTail(db: Primary, ghost s0: TP.Store, t: nat, o: Order) returns (err: Option<CreateError>)
    requires Underway(s0, db.store, t) && db.store.txns[t].done == Head(o) + Reserves(o.lines)
    requires KEvent(o.event) !in s0.live
    requires KDay(DayOf(o.now)) in s0.live ==> s0.live[KDay(DayOf(o.now))].RDay?
    modifies db`store, db`calls
    ensures Underway(s0, db.store, t)
    ensures db.calls >= old(db.calls)
    ensures err == Some(Fault) && old(db.Healthy()) ==> Contended(s0, o)
    ensures err.None? ==> db.store.txns[t].done == Program(o)
    ensures err.None? || err == Some(Fault)
  {
    TailOfProgram(o);
    var r := Send(db, s0, t, Tail(o)[0]);
    if !r.Done? {
      return Some(Fault);
    }
    ghost var mid := db.store.live;
    TailRowsUntouched(s0.live, o, KEvent(o.event));
    TailRowsUntouched(s0.live, o, KDay(DayOf(o.now)));
    assert Get(mid, KEvent(o.event)) == None && Get(mid, KDay(DayOf(o.now))) == Get(s0.live, KDay(DayOf(o.now)));
    r := Send(db, s0, t, Tail(o)[1]);
    if !r.Done? {
      return Some(Fault);
    }
    ExecLocal(Tail(o)[1], mid, mid);
    assert Get(db.store.live, KDay(DayOf(o.now))) == Get(mid, KDay(DayOf(o.now)));
    r := Send(db, s0, t, Tail(o)[2]);
    err := if r.Done? then None else Some(Fault);
  }

  /** All statements of the order, up to the first that fails. */
  method SendOrder(db: Primary, ghost s0: TP.Store, t: nat, o: Order) returns (err: Option<CreateError>)
    requires Underway(s0, db.store, t) && db.store.txns[t].done == [] && o.lines != [] && DistinctProducts(o.lines)
    requires Sound(s0.live, o.id, o.event)
    modifies db`store, db`calls
    ensures Underway(s0, db.store, t)
    ensures db.calls >= old(db.calls)
    ensures err == Some(Fault) && old(db.Healthy()) ==> Contended(s0, o)
    ensures err.None? ==> db.store.txns[t].done == Program(o) && Covered(s0.live, o.lines)
    ensures err == Some(InsufficientStock) ==> !Covered(s0.live, o.lines)
    ensures err == Some(BadQuantity) ==> exists l | l in o.lines :: l.quantity <= 0
    ensures err.Some? ==> err.value in {BadQuantity, InsufficientStock, Fault}
  {
    err := SendHead(db, s0, t, o);
    if err.None? {
      err := SendReserves(db, s0, t, o);
      if err.None? {
        err := SendTail(db, s0, t, o);
      }
    }
  }

  lemma {:induction false} SummariesStayTyped(t: Table, stmts: seq<Stmt>)
    requires (forall d: nat | KDay(d) in t :: t[KDay(d)].RDay?) && Run(t, stmts).Some?
    ensures forall d: nat | KDay(d) in Run(t, stmts).value :: Run(t, stmts).value[KDay(d)].RDay?
  {
    if stmts != [] {
      var front, last := stmts[..|stmts| - 1], Last(stmts);
      SummariesStayTyped(t, front);
      var m, r := Run(t, front).value, Run(t, stmts).value;
      ExecLocal(last, m, m);
      forall d: nat | KDay(d) in r ensures r[KDay(d)].RDay? {
        if !(last.UpsertDay? && last.day == d) {
          assert Get(r, KDay(d)) == Get(m, KDay(d));
        }
      }
    }
  }

  /** The buyer's cart is emptied, every other cart is left alone. */
  lemma {:induction false} CartAfterOrder(t: Table, o: Order, user: nat)
    requires Run(t, Program(o)).Some?
    ensures CartOf(Run(t, Program(o)).value, user) == if user == o.user then map[] else CartOf(t, user)
  {
    var k := KCart(user);
    if user != o.user {
      RunFrame(t, Program(o), k);
    } else {
      var front, tail := Head(o) + Reserves(o.lines), Tail(o);
      assert Program(o) == front + ([tail[0]] + [tail[1], tail[2]]);
      RunConcat(t, front, [tail[0]] + [tail[1], tail[2]]);
      var m := Run(t, front).value;
      RunConcat(m, [tail[0]], [tail[1], tail[2]]);
      RunOne(m, tail[0]);
      RunFrame(m - {k}, [tail[1], tail[2]], k);
    }
  }

  /** Placing an order keeps ids below the counters, summary rows well-formed and carts in range. */
  lemma {:induction false} OrderKeepsSound(t: Table, o: Order)
    requires Sound(t, o.id, o.event) && Run(t, Program(o)).Some?
    ensures Sound(Run(t, Program(o)).value, o.id + 1, o.event + 1)
  {
    var r := Run(t, Program(o)).value;
    OrderRows(t, o);
    forall x: nat | KOrder(x) in r ensures x < o.id + 1 {
      if x != o.id { OrderTouches(t, o, KOrder(x)); }
    }
    forall x: nat, p: nat | KItem(x, p) in r ensures x < o.id + 1 {
      if x != o.id { OrderTouches(t, o, KItem(x, p)); }
    }
    forall e: nat | KEvent(e) in r ensures e < o.event + 1 {
      if e != o.event { OrderTouches(t, o, KEvent(e)); }
    }
    SummariesStayTyped(t, Program(o));
    forall user: nat ensures CartOf(r, user) == CartOf(t, user) || CartOf(r, user) == map[] {
      CartAfterOrder(t, o, user);
    }
  }

  /** The transaction of an order: every statement and the commit, or a rollback that leaves the store as it was. */
  method PlaceOrder(db: Primary, o: Order) returns (err: Option<CreateError>)
    requires db.Valid() && o.lines != [] && DistinctProducts(o.lines)
    requires o.id == db.nextOrder && o.event == db.nextEvent
    modifies db
    ensures db.Valid()
    ensures err.Some? ==> db.store == old(db.store)
    ensures err.None? ==>
      && Run(old(db.store).live, Program(o)) == Some(db.store.live) && Covered(old(db.store).live, o.lines)
      && db.store.txns == old(db.store).txns && db.store.log == old(db.store).log + [Program(o)]
    ensures err == Some(Fault) && old(db.Healthy()) ==> Contended(old(db.store), o)
    ensures err == Some(InsufficientStock) ==> !Covered(old(db.store).live, o.lines)
    ensures err == Some(BadQuantity) ==> exists l | l in o.lines :: l.quantity <= 0
    ensures err.Some? ==> err.value in {BadQuantity, InsufficientStock, Fault}
  {
    ghost var s0 := db.store;
    var t, begun := db.Begin();
    if !begun {
      return Some(Fault);
    }
    BeginUnderway(s0, t);
    var committed := false;
    err := SendOrder(db, s0, t, o);
    db.nextOrder, db.nextEvent := o.id + 1, o.event + 1;
    if err.None? {
      OrderKeepsSound(s0.live, o);
      committed := db.Commit(t);
      err := if committed then None else Some(Fault);
    }
    if !committed {
      db.Rollback(t);
    }
  }

  /** The order a successful call places. */
  function Placing(db: Primary, user: nat, now: nat, eventAt: nat): Order
    reads db
  {
    Order(db.nextOrder, db.nextEvent, user, LinesOf(SeenCart(db.store, user), db.prices), now, eventAt)
  }

  /** While nobody else holds the cart, every listed quantity is in range. */
  lemma FreeCartInRange(s: TP.Store, prices: map<nat, int>, user: nat, l: Line)
    requires !Blocked(s, ClearCart(user)) && CartsInRange(s.live) && l in LinesOf(SeenCart(s, user), prices)
    ensures l.quantity > 0
  {
    LinesListed(SeenCart(s, user), prices);
    var holders := set t: nat | t in s.txns && KCart(user) in s.txns[t].undo;
    assert forall t | t in s.txns :: KCart(user) in Keys(ClearCart(user)) && KCart(user) !in s.txns[t].undo.Keys;
    assert holders == {};
    assert SeenCart(s, user) == CartOf(s.live, user);
  }

  lemma AloneIsUncontended(s: TP.Store, o: Order)
    requires s.txns == map[]
    ensures !Contended(s, o)
  {
    forall k | 0 <= k < |Program(o)| ensures !Blocked(s, Program(o)[k]) {
    }
  }

  lemma {:induction false} UncontendedInRange(s: TP.Store, prices: map<nat, int>, o: Order)
    requires !Contended(s, o) && CartsInRange(s.live) && o.lines == LinesOf(SeenCart(s, o.user), prices)
    ensures forall l | l in o.lines :: l.quantity > 0
  {
    TailOfProgram(o);
    assert !Blocked(s, ClearCart(o.user));
    forall l | l in o.lines ensures l.quantity > 0 {
      FreeCartInRange(s, prices, o.user, l);
    }
  }

  /**
   On success the whole program of the order is committed as one log entry and the returned order carries the cart
   lines; on any error the store is exactly what it was. When no call to the database fails and no other transaction
   holds a row of the order - when it runs alone, in particular - it succeeds if and only if the cart is not empty and
   every line is covered by stock.
   */
  method CreateOrder(db: Primary, user: nat, now: nat, eventAt: nat) returns (res: Result)
    requires db.Valid()
    modifies db
    ensures db.Valid()
    ensures res.Err? ==> db.store == old(db.store)
    ensures res.Ok? ==> var o := old(Placing(db, user, now, eventAt));
      && Run(old(db.store).live, Program(o)) == Some(db.store.live)
      && db.store.txns == old(db.store).txns && db.store.log == old(db.store).log + [Program(o)]
      && res.order == Created(o.id, user, Total(o.lines), now, o.lines)
    ensures var lines := old(Placing(db, user, now, eventAt)).lines;
      && (res == Err(EmptyCart) ==> lines == [])
      && (res == Err(InsufficientStock) ==> !Covered(old(db.store).live, lines))
    ensures var o := old(Placing(db, user, now, eventAt));
      old(db.Healthy()) && !Contended(old(db.store), o) ==>
        && (res.Ok? <==> o.lines != [] && Covered(old(db.store).live, o.lines))
        && (res == Err(EmptyCart) <==> o.lines == [])
        && (res == Err(InsufficientStock) <==> !Covered(old(db.store).live, o.lines))
    ensures var lines := old(Placing(db, user, now, eventAt)).lines;
      old(db.Healthy()) && old(db.store).txns == map[] ==>
        (res.Ok? <==> lines != [] && Covered(old(db.store).live, lines))
  {
    var lines, total, listed := List(db, user);
    if !listed {
      return Err(Fault);
    }
    if |lines| == 0 {
      return Err(EmptyCart);
    }
    LinesListed(SeenCart(db.store, user), db.prices);
    var o := Order(db.nextOrder, db.nextEvent, user, lines, now, eventAt);
    var err := PlaceOrder(db, o);
    if old(db.store).txns == map[] {
      AloneIsUncontended(old(db.store), o);
    }
    if !Contended(old(db.store), o) {
      UncontendedInRange(old(db.store), db.prices, o);
    }
    res := if err.None? then Ok(Created(o.id, user, total, now, lines)) else Err(err.value);
  }

  /** Reads the order row from one side and its items, row by row, from the other. */
  method FindOrder(head: Table, body: Table, id: nat, user: nat) returns (r: Reads.Found)
    ensures r == Reads.FindOrder(head, body, id, user)
  {
    if !(KOrder(id) in head && head[KOrder(id)].ROrder? && head[KOrder(id)].user == user) {
      return Reads.NotFound;
    }
    NatsTotal(Reads.ItemProducts(body, id));
    var products := SortBy(Reads.ItemProducts(body, id), NatLess);
    var items: seq<Line> := [];
    for i := 0 to |products|
      invariant items == Reads.ItemsOf(body, id)[..i]
    {
      items := items + [Reads.ItemLine(body, id, products[i])];
    }
    r := Reads.Found(id, user, head[KOrder(id)].total, head[KOrder(id)].createdAt, items);
  }
}
