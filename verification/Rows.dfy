/**
 The primary's tables as one finite map from primary key to row, and the effect of every SQL statement
 the order pipeline sends. A statement reads and writes only the rows named by `Keys`.
 */
module Rows {
  import opened Ordering

  datatype Line = Line(product: nat, quantity: int, unitPrice: int)

  datatype CartLine = CartLine(quantity: int, updatedAt: nat)

  /** Primary keys. The rows of one user's cart form one lockable range. */
  datatype Key =
    | KOrder(order: nat)
    | KItem(itemOrder: nat, product: nat)
    | KStock(stockOf: nat)
    | KCart(cartUser: nat)
    | KEvent(event: nat)
    | KDay(day: nat)

  datatype Row =
    | ROrder(user: nat, total: int, createdAt: nat)
    | RItem(quantity: int, unitPrice: int)
    | RStock(stock: int)
    | RCart(lines: map<nat, CartLine>)
    | REvent(forOrder: nat, forUser: nat, forTotal: int, insertedAt: nat, processedAt: Option<nat>)
    | RDay(orders: int, amount: int, updatedAt: nat)

  type Table = map<Key, Row>

  datatype Stmt =
    | InsertOrder(order: nat, user: nat, total: int, now: nat)
    | InsertItems(order: nat, lines: seq<Line>)
    | Reserve(product: nat, quantity: int)
    | ClearCart(user: nat)
    | InsertEvent(event: nat, order: nat, user: nat, total: int, now: nat)
    | UpsertDay(day: nat, total: int, now: nat)
    | PutCart(user: nat, product: nat, line: Option<CartLine>)
    | LockEvent(event: nat)
    | MarkEvent(event: nat, now: nat)

  const MICROS_PER_DAY: nat := 86_400_000_000

  /** The UTC date of an instant, as a day number. */
  function DayOf(now: nat): nat { now / MICROS_PER_DAY }

  function Get(t: Table, k: Key): Option<Row> {
    if k in t then Some(t[k]) else None
  }

  function CartIn(row: Option<Row>): map<nat, CartLine> {
    if row.Some? && row.value.RCart? then row.value.lines else map[]
  }

  function CartOf(t: Table, user: nat): map<nat, CartLine> {
    CartIn(Get(t, KCart(user)))
  }

  /** The multi-row insert into order_items; a duplicate (order_id, product_id) rejects the whole statement. */
  function AddItems(t: Table, order: nat, lines: seq<Line>): Option<Table>
    decreases |lines|
  {
    if lines == [] then Some(t)
    else if KItem(order, lines[0].product) in t then None
    else AddItems(t[KItem(order, lines[0].product) := RItem(lines[0].quantity, lines[0].unitPrice)], order, lines[1..])
  }

  /** The tables after one statement; None when the caller sees an error or no affected row and gives up. */
  function Exec(s: Stmt, t: Table): Option<Table> {
    match s
    case InsertOrder(o, user, total, now) =>
      if KOrder(o) in t then None else Some(t[KOrder(o) := ROrder(user, total, now)])
    case InsertItems(o, lines) => AddItems(t, o, lines)
    case Reserve(p, q) =>
      if q > 0 && KStock(p) in t && t[KStock(p)].RStock? && t[KStock(p)].stock >= q
      then Some(t[KStock(p) := RStock(t[KStock(p)].stock - q)])
      else None
    case ClearCart(user) => Some(t - {KCart(user)})
    case InsertEvent(e, o, user, total, now) =>
      if KEvent(e) in t then None else Some(t[KEvent(e) := REvent(o, user, total, now, None)])
    case UpsertDay(d, total, now) =>
      if KDay(d) !in t then Some(t[KDay(d) := RDay(1, total, now)])
      else if t[KDay(d)].RDay? then
        Some(t[KDay(d) := RDay(t[KDay(d)].orders + 1, t[KDay(d)].amount + total, now)])
      else None
    case PutCart(user, p, line) =>
      var cart := CartOf(t, user);
      Some(t[KCart(user) := RCart(if line.Some? then cart[p := line.value] else cart - {p})])
    case LockEvent(e) => Some(t)
    case MarkEvent(e, now) =>
      if KEvent(e) in t && t[KEvent(e)].REvent? then Some(t[KEvent(e) := t[KEvent(e)].(processedAt := Some(now))])
      else Some(t)
  }

  function Keys(s: Stmt): set<Key> {
    match s
    case InsertOrder(o, _, _, _) => {KOrder(o)}
    case InsertItems(o, lines) => set l | l in lines :: KItem(o, l.product)
    case Reserve(p, _) => {KStock(p)}
    case ClearCart(user) => {KCart(user)}
    case InsertEvent(e, _, _, _, _) => {KEvent(e)}
    case UpsertDay(d, _, _) => {KDay(d)}
    case PutCart(user, _, _) => {KCart(user)}
    case LockEvent(e) => {KEvent(e)}
    case MarkEvent(e, _) => {KEvent(e)}
  }

  function KeysOf(stmts: seq<Stmt>): set<Key> {
    if stmts == [] then {} else KeysOf(stmts[..|stmts| - 1]) + Keys(stmts[|stmts| - 1])
  }

  /** A statement list run on its own. */
  function Run(t: Table, stmts: seq<Stmt>): Option<Table> {
    if stmts == [] then Some(t) else
      match Run(t, stmts[..|stmts| - 1])
      case None => None
      case Some(r) => Exec(stmts[|stmts| - 1], r)
  }

  ghost predicate Agree(a: Table, b: Table, ks: set<Key>) {
    forall k | k in ks :: Get(a, k) == Get(b, k)
  }

  lemma SameTable(a: Table, b: Table)
    requires forall k :: Get(a, k) == Get(b, k)
    ensures a == b
  {
    assert forall k :: k in a <==> Get(a, k).Some?;
    assert forall k :: k in b <==> Get(b, k).Some?;
    assert forall k | k in a :: a[k] == Get(a, k).value && b[k] == Get(b, k).value;
  }

  lemma {:induction false} AddItemsLocal(a: Table, b: Table, o: nat, lines: seq<Line>, ks: set<Key>)
    requires Agree(a, b, ks)
    requires forall l | l in lines :: KItem(o, l.product) in ks
    ensures AddItems(a, o, lines).Some? == AddItems(b, o, lines).Some?
    ensures AddItems(a, o, lines).Some? ==> Agree(AddItems(a, o, lines).value, AddItems(b, o, lines).value, ks)
    ensures AddItems(a, o, lines).Some? ==> forall k | k !in ks :: Get(AddItems(a, o, lines).value, k) == Get(a, k)
    decreases |lines|
  {
    if lines != [] {
      var k := KItem(o, lines[0].product);
      var row := RItem(lines[0].quantity, lines[0].unitPrice);
      assert k in ks by { assert lines[0] in lines; }
      assert Get(a, k) == Get(b, k);
      assert Agree(a[k := row], b[k := row], ks);
      AddItemsLocal(a[k := row], b[k := row], o, lines[1..], ks);
    }
  }

  /** Statements are local: equal rows under their keys give equal outcomes, and no other row changes. */
  lemma {:induction false} ExecLocal(s: Stmt, a: Table, b: Table)
    requires Agree(a, b, Keys(s))
    ensures Exec(s, a).Some? == Exec(s, b).Some?
    ensures Exec(s, a).Some? ==> Agree(Exec(s, a).value, Exec(s, b).value, Keys(s))
    ensures Exec(s, a).Some? ==> forall k | k !in Keys(s) :: Get(Exec(s, a).value, k) == Get(a, k)
  {
    assert forall k | k in Keys(s) :: k in a <==> k in b;
    match s
    case InsertItems(o, lines) => AddItemsLocal(a, b, o, lines, Keys(s));
    case InsertOrder(o, _, _, _) => assert Get(a, KOrder(o)) == Get(b, KOrder(o));
    case Reserve(p, _) => assert Get(a, KStock(p)) == Get(b, KStock(p));
    case ClearCart(u) => assert Get(a, KCart(u)) == Get(b, KCart(u));
    case InsertEvent(e, _, _, _, _) => assert Get(a, KEvent(e)) == Get(b, KEvent(e));
    case UpsertDay(d, _, _) => assert Get(a, KDay(d)) == Get(b, KDay(d));
    case PutCart(u, _, _) => assert Get(a, KCart(u)) == Get(b, KCart(u));
    case LockEvent(e) => assert Get(a, KEvent(e)) == Get(b, KEvent(e));
    case MarkEvent(e, _) => assert Get(a, KEvent(e)) == Get(b, KEvent(e));
  }

  lemma {:induction false} RunLocal(stmts: seq<Stmt>, a: Table, b: Table)
    requires Agree(a, b, KeysOf(stmts))
    ensures Run(a, stmts).Some? == Run(b, stmts).Some?
    ensures Run(a, stmts).Some? ==> Agree(Run(a, stmts).value, Run(b, stmts).value, KeysOf(stmts))
    ensures Run(a, stmts).Some? ==> forall k | k !in KeysOf(stmts) :: Get(Run(a, stmts).value, k) == Get(a, k)
  {
    if stmts != [] {
      var front, last := stmts[..|stmts| - 1], stmts[|stmts| - 1];
      RunLocal(front, a, b);
      if Run(a, front).Some? {
        var ra, rb := Run(a, front).value, Run(b, front).value;
        RunLocal(front, b, a);
        assert Agree(ra, rb, KeysOf(stmts));
        ExecLocal(last, ra, rb);
        ExecLocal(last, rb, ra);
      }
    }
  }

  lemma {:induction false} RunConcat(t: Table, a: seq<Stmt>, b: seq<Stmt>)
    ensures Run(t, a + b) == if Run(t, a).Some? then Run(Run(t, a).value, b) else None
  {
    if b == [] {
      assert a + b == a;
    } else {
      var front := b[..|b| - 1];
      assert (a + b)[..|a + b| - 1] == a + front;
      RunConcat(t, a, front);
    }
  }
}
