/** Cart rows: the saturating add, update, remove, and the listing an order is made from. */
module Cart {
  import opened Ordering
  import opened Rows
  import opened Orders
  import opened Database
  import TP = TwoPhase

  datatype CartError = InvalidQuantity | NoRows | DatabaseError

  function Min(a: int, b: int): int { if a < b then a else b }

  /** The quantity after INSERT ... ON DUPLICATE KEY UPDATE quantity = LEAST(99, quantity + VALUES(quantity)). */
  function Added(cart: map<nat, CartLine>, product: nat, qty: int): int {
    if product in cart then Min(99, cart[product].quantity + qty) else qty
  }

  /** ORDER BY updated_at DESC, product_id ASC. */
  function Newest(cart: map<nat, CartLine>): (nat, nat) -> bool {
    (p: nat, q: nat) => p in cart && q in cart
      && (cart[p].updatedAt > cart[q].updatedAt || (cart[p].updatedAt == cart[q].updatedAt && p < q))
  }

  lemma NewestTotal(cart: map<nat, CartLine>, ps: set<nat>)
    requires ps <= cart.Keys
    ensures TotalOn(ps, Newest(cart))
  {
  }

  predicate Listed(cart: map<nat, CartLine>, prices: map<nat, int>, l: Line) {
    l.product in cart && l.product in prices && l == Line(l.product, cart[l.product].quantity, prices[l.product])
  }

  /** The cart's rows joined with the products table, newest first. */
  function LinesOf(cart: map<nat, CartLine>, prices: map<nat, int>): seq<Line> {
    NewestTotal(cart, cart.Keys * prices.Keys);
    var order := SortBy(cart.Keys * prices.Keys, Newest(cart));
    seq(|order|, i requires 0 <= i < |order| =>
      assert order[i] in cart.Keys * prices.Keys; Line(order[i], cart[order[i]].quantity, prices[order[i]]))
  }

  lemma {:induction false} LineListed(cart: map<nat, CartLine>, prices: map<nat, int>, l: Line)
    ensures l in LinesOf(cart, prices) <==> Listed(cart, prices, l)
  {
    var ps := cart.Keys * prices.Keys;
    NewestTotal(cart, ps);
    var order := SortBy(ps, Newest(cart));
    var lines := LinesOf(cart, prices);
    if l in lines {
      var i :| 0 <= i < |lines| && lines[i] == l;
      assert order[i] in ps;
    }
    if Listed(cart, prices, l) {
      assert l.product in order;
      var i :| 0 <= i < |order| && order[i] == l.product;
      assert lines[i] == l;
    }
  }

  /** One line for each cart product that is in the products table, newest first, no product twice. */
  lemma {:induction false} LinesListed(cart: map<nat, CartLine>, prices: map<nat, int>)
    ensures DistinctProducts(LinesOf(cart, prices))
    ensures forall l :: l in LinesOf(cart, prices) <==> Listed(cart, prices, l)
    ensures forall i, j | 0 <= i < j < |LinesOf(cart, prices)| ::
      var a, b := LinesOf(cart, prices)[i].product, LinesOf(cart, prices)[j].product;
      && a in cart && b in cart
      && (cart[a].updatedAt > cart[b].updatedAt || (cart[a].updatedAt == cart[b].updatedAt && a < b))
  {
    var ps := cart.Keys * prices.Keys;
    NewestTotal(cart, ps);
    var order := SortBy(ps, Newest(cart));
    var lines := LinesOf(cart, prices);
    forall i, j | 0 <= i < j < |lines| ensures Newest(cart)(lines[i].product, lines[j].product) {
      assert Newest(cart)(order[i], order[j]);
    }
    forall l ensures l in lines <==> Listed(cart, prices, l) {
      LineListed(cart, prices, l);
    }
  }

  /** The user's cart as a plain read on the primary sees it. */
  function SeenCart(s: TP.Store, user: nat): map<nat, CartLine> {
    CartIn(TP.Seen(s, KCart(user)))
  }

  lemma TotalSnoc(lines: seq<Line>, l: Line)
    ensures Total(lines + [l]) == Total(lines) + l.quantity * l.unitPrice
  {
    TotalSplit(lines, [l]);
    assert [l][1..] == [];
  }

  /** The query itself: every row of the committed cart that joins with a product. */
  method Query(db: Primary, user: nat) returns (rows: seq<Line>, ok: bool)
    modifies db`calls
    ensures db.calls == old(db.calls) + 1 && ok == (old(db.calls) !in db.fails)
    ensures ok ==> rows == LinesOf(SeenCart(db.store, user), db.prices)
  {
    var fault := db.Call();
    if fault {
      return [], false;
    }
    rows, ok := LinesOf(SeenCart(db.store, user), db.prices), true;
  }

  /** Goes through the rows one by one, adding up the subtotals. */
  method Collect(rows: seq<Line>) returns (lines: seq<Line>, total: int)
    ensures lines == rows && total == Total(rows)
  {
    lines, total := [], 0;
    for i := 0 to |rows|
      invariant lines == rows[..i] && total == Total(lines)
    {
      total := total + rows[i].quantity * rows[i].unitPrice;
      TotalSnoc(lines, rows[i]);
      lines := lines + [rows[i]];
    }
  }

  method List(db: Primary, user: nat) returns (lines: seq<Line>, total: int, ok: bool)
    modifies db`calls
    ensures db.calls == old(db.calls) + 1 && ok == (old(db.calls) !in db.fails)
    ensures ok ==> lines == LinesOf(SeenCart(db.store, user), db.prices) && total == Total(lines)
  {
    var rows;
    rows, ok := Query(db, user);
    lines, total := Collect(if ok then rows else []);
  }

  /** One statement in a transaction of its own. */
  method AutoCommit(db: Primary, stmt: Stmt) returns (ok: bool)
    requires db.Valid() && (stmt.PutCart? || stmt.ClearCart?)
    modifies db`store, db`nextTxn, db`calls
    ensures db.calls >= old(db.calls)
    ensures old(db.Healthy()) && !Blocked(old(db.store), stmt) ==> ok
    ensures !ok ==> db.store == old(db.store)
    ensures ok ==> Exec(stmt, old(db.store).live) == Some(db.store.live)
    ensures ok ==> db.store.txns == old(db.store).txns && db.store.log == old(db.store).log + [[stmt]]
    ensures forall t | t in db.store.txns :: t < db.nextTxn
  {
    var t, begun := db.Begin();
    if !begun {
      return false;
    }
    UnlockedUnlessBlocked(old(db.store), db.store, t, stmt);
    var r := db.Exec(t, stmt);
    TP.RollbackOfNothing(old(db.store), t);
    if !r.Done? {
      db.Rollback(t);
      return false;
    }
    TP.RollbackUndoes(TP.Begin(old(db.store), t), t, stmt);
    ok := db.Commit(t);
    if ok {
      assert db.store.txns == old(db.store).txns;
      assert [] + [stmt] == [stmt];
    }
  }

  lemma PutCartSound(t: Table, user: nat, product: nat, line: Option<CartLine>, n: nat, e: nat)
    requires Sound(t, n, e) && (line.Some? ==> 1 <= line.value.quantity <= 99)
    ensures Sound(Exec(PutCart(user, product, line), t).value, n, e)
    ensures var r := Exec(PutCart(user, product, line), t).value;
      CartOf(r, user) == if line.Some? then CartOf(t, user)[product := line.value] else CartOf(t, user) - {product}
    ensures forall k | k != KCart(user) :: Get(Exec(PutCart(user, product, line), t).value, k) == Get(t, k)
  {
    var r := Exec(PutCart(user, product, line), t).value;
    forall u: nat | u != user ensures CartOf(r, u) == CartOf(t, u) {
    }
  }

  /** Adds `qty`, saturating at 99; every other row of every table stays as it was. */
  method Add(db: Primary, user: nat, product: nat, qty: int, now: nat) returns (err: Option<CartError>)
    requires db.Valid()
    modifies db`store, db`nextTxn, db`calls
    ensures db.Valid()
    ensures old(db.Healthy()) && !Blocked(old(db.store), PutCart(user, product, None)) ==> err != Some(DatabaseError)
    ensures err == Some(InvalidQuantity) <==> !(1 <= qty <= 99)
    ensures err.Some? ==> db.store == old(db.store) && err != Some(NoRows)
    ensures err.None? ==>
      var cart, after := CartOf(old(db.store).live, user), CartOf(db.store.live, user);
      && after.Keys == cart.Keys + {product} && (forall p | p in cart && p != product :: after[p] == cart[p])
      && after[product].updatedAt == now
      && (product !in cart ==> after[product].quantity == qty)
      && (product in cart && cart[product].quantity + qty <= 99 ==>
            after[product].quantity == cart[product].quantity + qty)
      && (product in cart && cart[product].quantity + qty > 99 ==> after[product].quantity == 99)
    ensures err.None? ==> forall k | k != KCart(user) :: Get(db.store.live, k) == Get(old(db.store).live, k)
  {
    if qty <= 0 || qty > 99 {
      return Some(InvalidQuantity);
    }
    var cart := CartOf(db.store.live, user);
    var line := Some(CartLine(Added(cart, product, qty), now));
    PutCartSound(db.store.live, user, product, line, db.nextOrder, db.nextEvent);
    var ok := AutoCommit(db, PutCart(user, product, line));
    err := if ok then None else Some(DatabaseError);
  }

  /** Sets the quantity. A row that is missing, or that the update leaves as it was, counts as no affected row. */
  method Update(db: Primary, user: nat, product: nat, qty: int, now: nat) returns (err: Option<CartError>)
    requires db.Valid()
    modifies db`store, db`nextTxn, db`calls
    ensures db.Valid()
    ensures old(db.Healthy()) && !Blocked(old(db.store), PutCart(user, product, None)) ==> err != Some(DatabaseError)
    ensures err == Some(InvalidQuantity) <==> !(1 <= qty <= 99)
    ensures var cart := CartOf(old(db.store).live, user);
      && (err.None? ==> product in cart && CartOf(db.store.live, user) == cart[product := CartLine(qty, now)])
      && (err == Some(NoRows) ==> product !in cart || cart[product] == CartLine(qty, now))
    ensures err.Some? ==> db.store == old(db.store)
    ensures err.None? ==> forall k | k != KCart(user) :: Get(db.store.live, k) == Get(old(db.store).live, k)
  {
    if qty <= 0 || qty > 99 {
      return Some(InvalidQuantity);
    }
    var cart := CartOf(db.store.live, user);
    var line := Some(CartLine(qty, now));
    if product !in cart || cart[product] == CartLine(qty, now) {
      return Some(NoRows);
    }
    PutCartSound(db.store.live, user, product, line, db.nextOrder, db.nextEvent);
    var ok := AutoCommit(db, PutCart(user, product, line));
    err := if ok then None else Some(DatabaseError);
  }

  method Remove(db: Primary, user: nat, product: nat) returns (err: Option<CartError>)
    requires db.Valid()
    modifies db`store, db`nextTxn, db`calls
    ensures db.Valid()
    ensures old(db.Healthy()) && !Blocked(old(db.store), PutCart(user, product, None)) ==> err != Some(DatabaseError)
    ensures err.Some? ==> db.store == old(db.store) && err == Some(DatabaseError)
    ensures err.None? ==> CartOf(db.store.live, user) == CartOf(old(db.store).live, user) - {product}
    ensures err.None? ==> forall k | k != KCart(user) :: Get(db.store.live, k) == Get(old(db.store).live, k)
  {
    PutCartSound(db.store.live, user, product, None, db.nextOrder, db.nextEvent);
    var ok := AutoCommit(db, PutCart(user, product, None));
    err := if ok then None else Some(DatabaseError);
  }
}
