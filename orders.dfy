/**
 * The order service: the sentinel answer of the extraction step, the parser of the
 * extracted "<Product>: <Quantity>, ..." text, and the loop that saves an order.
 */
module Orders {
  import opened Wrappers
  import opened Records
  import opened Text
  import opened Seqs
  import Store

  /** The answer the extraction step gives when the message holds no order. */
  const NoOrderSentinel := "No order details found"
  const NothingSaved := "No order details found — nothing saved."
  const ServerError := "Server error"

  /** `extractOrder`'s return value for the model's output text: null for the sentinel, else the trimmed text. */
  function ExtractedOrder(output: string): (r: Option<string>)
    ensures r.None? <==> Trim(output) == NoOrderSentinel
    ensures r.Some? ==> r.value == Trim(output) && Trim(r.value) == r.value
  {
    TrimIdempotent(output);
    var text := Trim(output);
    if text == NoOrderSentinel then None else Some(text)
  }

  /** The comma-separated pieces of the text, each trimmed. */
  function TrimmedPieces(text: string): (r: seq<string>)
    ensures |r| == |Split(text, ',')|
    ensures forall k :: 0 <= k < |r| ==> r[k] == Trim(Split(text, ',')[k])
  {
    MapSeq(Split(text, ','), Trim)
  }

  /** The trimmed pieces, empty ones dropped: every line is non-empty and trimmed. */
  function Lines(text: string): (r: seq<string>)
    ensures forall k :: 0 <= k < |r| ==> r[k] != "" && Trim(r[k]) == r[k]
  {
    var trimmed := TrimmedPieces(text);
    var r := Filter(trimmed, (l: string) => l != "");
    assert forall k :: 0 <= k < |r| ==> Trim(r[k]) == r[k] by {
      forall k | 0 <= k < |r|
        ensures Trim(r[k]) == r[k]
      {
        var j :| 0 <= j < |trimmed| && trimmed[j] == r[k];
        TrimIdempotent(Split(text, ',')[j]);
      }
    }
    r
  }

  /** The lines keep the order of the pieces they come from. */
  lemma LinesKeepOrder(text: string)
    ensures IsSubsequence(Lines(text), TrimmedPieces(text))
  {
    FilterIsSubsequence(TrimmedPieces(text), (l: string) => l != "");
  }

  /** The product part of a line: its first ':'-piece, trimmed. */
  function ProductPart(line: string): string {
    Trim(Split(line, ':')[0])
  }

  /** The quantity part of a line: its second ':'-piece, trimmed, if there is one. */
  function QuantityPart(line: string): Option<string> {
    match Piece(line, ':', 1)
    case None => None
    case Some(q) => Some(Trim(q))
  }

  /**
   * The entry a line contributes: a non-empty product, a non-empty quantity that
   * `isNaN` accepts, and `parseInt` of that quantity as the value.
   */
  function LineEntry(line: string): (r: Option<(string, int)>)
    ensures r.Some? <==>
      ProductPart(line) != "" && QuantityPart(line).Some? && QuantityPart(line).value != "" && !IsNaN(QuantityPart(line).value)
    ensures r.Some? ==> r.value.0 == ProductPart(line) && Some(r.value.1) == ParseInt(QuantityPart(line).value)
  {
    var product := ProductPart(line);
    match QuantityPart(line)
    case None => None
    case Some(quantity) =>
      if product != "" && quantity != "" && !IsNaN(quantity) then
        TrimIdempotent(Split(line, ':')[1]);
        ParseIntAgreesWithNumber(quantity);
        Some((product, ParseInt(quantity).value))
      else None
  }

  /** The entries of the lines, in order; `None` for a line that contributes nothing. */
  function Entries(lines: seq<string>): (r: seq<Option<(string, int)>>)
    ensures |r| == |lines| && forall k :: 0 <= k < |r| ==> r[k] == LineEntry(lines[k])
  {
    MapSeq(lines, LineEntry)
  }

  /** The dictionary the loop builds from the entries, in order: a later entry overwrites an earlier one. */
  function Collect(es: seq<Option<(string, int)>>): map<string, int> {
    if es == [] then map[]
    else
      var before := Collect(es[..|es| - 1]);
      match es[|es| - 1]
      case None => before
      case Some(e) => before[e.0 := e.1]
  }

  /** `parseExtractedOrder`. */
  method ParseExtractedOrder(text: string) returns (result: map<string, int>)
    ensures Trim(text) == NoOrderSentinel ==> result == map[]
    ensures Trim(text) != NoOrderSentinel ==> result == Collect(Entries(Lines(text)))
  {
    if Trim(text) == NoOrderSentinel {
      return map[];
    }
    result := CollectLines(Lines(text));
  }

  /** The loop over the lines: each line's entry, if any, is written into the dictionary in turn. */
  method CollectLines(lines: seq<string>) returns (result: map<string, int>)
    ensures result == Collect(Entries(lines))
  {
    ghost var es := Entries(lines);
    result := map[];
    for i := 0 to |lines|
      invariant result == Collect(es[..i])
    {
      var entry := LineEntry(lines[i]);
      CollectStep(es, i);
      if entry.Some? {
        result := result[entry.value.0 := entry.value.1];
      }
    }
    assert es[..|lines|] == es;
  }

  lemma CollectStep(es: seq<Option<(string, int)>>, i: nat)
    requires i < |es|
    ensures Collect(es[..i + 1]) == if es[i].Some? then Collect(es[..i])[es[i].value.0 := es[i].value.1] else Collect(es[..i])
  {
    assert es[..i + 1][..i] == es[..i];
  }

  /** A product is in the dictionary exactly when some entry names it. */
  lemma {:induction false} CollectKeys(es: seq<Option<(string, int)>>, name: string)
    ensures name in Collect(es) <==> exists k :: 0 <= k < |es| && es[k].Some? && es[k].value.0 == name
  {
    if es != [] {
      var init := es[..|es| - 1];
      CollectKeys(init, name);
      assert forall k :: 0 <= k < |init| ==> init[k] == es[k];
    }
  }

  /** Its value is the quantity of the last entry that names it. */
  lemma {:induction false} CollectLastWins(es: seq<Option<(string, int)>>, k: nat)
    requires k < |es| && es[k].Some?
    requires forall j :: k < j < |es| ==> es[j].None? || es[j].value.0 != es[k].value.0
    ensures es[k].value.0 in Collect(es) && Collect(es)[es[k].value.0] == es[k].value.1
  {
    var init := es[..|es| - 1];
    if k < |es| - 1 {
      assert forall j :: k < j < |init| ==> init[j] == es[j];
      CollectLastWins(init, k);
    }
  }

  /** How one order line reads: the product named, the quantity from the dictionary. */
  predicate LineFor(products: map<int, Product>, orderId: int, parsed: map<string, int>, line: OrderProduct) {
    && line.orderId == orderId
    && line.productId in products
    && products[line.productId].name in parsed
    && line.quantity == parsed[products[line.productId].name]
  }

  /** The product name of a line whose product exists. */
  function NameOf(products: map<int, Product>, line: OrderProduct): string {
    if line.productId in products then products[line.productId].name else ""
  }

  /** Some product of the table has this name. */
  predicate Known(products: map<int, Product>, name: string) {
    exists id :: id in products && products[id].name == name
  }

  /** `findUnique({ where: { name } })`. */
  method FindProduct(products: map<int, Product>, name: string) returns (r: Option<int>)
    ensures r.Some? ==> r.value in products && products[r.value].name == name
    ensures r.None? <==> !Known(products, name)
  {
    if Known(products, name) {
      var id :| id in products && products[id].name == name;
      r := Some(id);
    } else {
      r := None;
    }
  }

  datatype Saved = NothingToSave(message: string) | SavedOrder(orderId: int)

  /**
   * `saveExtractedOrder`: nothing is written for a missing or empty dictionary. Otherwise
   * exactly one order is created for the user, and one line per product name that the
   * product table knows; unknown names are skipped.
   */
  method SaveExtractedOrder(db: Store.Db, userId: int, parsed: Option<map<string, int>>) returns (r: Reply<Saved>)
    requires KeysBelow(db.orders, db.nextOrderId) && KeysBelow(db.orderProducts, db.nextOrderProductId)
    modifies db`orders, db`nextOrderId, db`orderProducts, db`nextOrderProductId
    ensures KeysBelow(db.orders, db.nextOrderId) && KeysBelow(db.orderProducts, db.nextOrderProductId)
    ensures parsed.None? || parsed.value == map[] ==>
      r == Ok(NothingToSave(NothingSaved)) && db.orders == old(db.orders) && db.orderProducts == old(db.orderProducts)
    ensures parsed.Some? && parsed.value != map[] && userId !in db.users ==>
      r == Err(500, ServerError) && db.orders == old(db.orders) && db.orderProducts == old(db.orderProducts)
    ensures parsed.Some? && parsed.value != map[] && userId in db.users ==>
      && r == Ok(SavedOrder(old(db.nextOrderId)))
      && db.orders == old(db.orders)[old(db.nextOrderId) := Order(userId)]
      && (forall id :: id in db.orderProducts <==> id in old(db.orderProducts) || old(db.nextOrderProductId) <= id < db.nextOrderProductId)
      && (forall id :: id in old(db.orderProducts) ==> db.orderProducts[id] == old(db.orderProducts)[id])
      && (forall id :: old(db.nextOrderProductId) <= id < db.nextOrderProductId ==>
            LineFor(db.products, old(db.nextOrderId), parsed.value, db.orderProducts[id]))
      && (forall name :: name in parsed.value && Known(db.products, name) ==>
            name in LineNames(db.products, db.orderProducts, old(db.nextOrderProductId), db.nextOrderProductId))
      && (var names := LineNames(db.products, db.orderProducts, old(db.nextOrderProductId), db.nextOrderProductId);
          forall i, j :: 0 <= i < j < |names| ==> names[i] != names[j])
  {
    if parsed.None? || parsed.value == map[] {
      return Ok(NothingToSave(NothingSaved));
    }
    if userId !in db.users {
      return Err(500, ServerError);
    }
    var entries := parsed.value;
    var orderId := db.nextOrderId;
    db.orders := db.orders[orderId := Order(userId)];
    db.nextOrderId := db.nextOrderId + 1;
    assert KeysBelow(db.orders, db.nextOrderId);
    db.orderProducts, db.nextOrderProductId := AddLines(db.products, db.orderProducts, db.nextOrderProductId, orderId, entries);
    r := Ok(SavedOrder(orderId));
  }

  /** The product names of the lines `from` to `to - 1`, in id order. */
  function LineNames(products: map<int, Product>, table: map<int, OrderProduct>, from: int, to: int): (r: seq<string>)
    requires forall id :: from <= id < to ==> id in table
    ensures |r| == if from <= to then to - from else 0
  {
    if to <= from then []
    else seq(to - from, k requires 0 <= k < to - from => NameOf(products, table[from + k]))
  }

  /**
   * What the save loop keeps true: the lines from `next` to `last - 1` are new, one per
   * name of `made`, in that order, each a line of the order with its product's quantity;
   * the names of `made` are distinct and handled; every handled known name has its line.
   */
  ghost predicate Progress(products: map<int, Product>, orderId: int, entries: map<string, int>,
                           table: map<int, OrderProduct>, next: int,
                           lines: map<int, OrderProduct>, last: int, done: set<string>, made: seq<string>)
  {
    && last == next + |made|
    && (forall id :: id in lines <==> id in table || next <= id < last)
    && (forall id :: id in table ==> lines[id] == table[id])
    && (forall id :: next <= id < last ==>
          LineFor(products, orderId, entries, lines[id]) && NameOf(products, lines[id]) == made[id - next])
    && (forall k :: 0 <= k < |made| ==> made[k] in done)
    && (forall name :: name in done && Known(products, name) ==> name in made)
    && (forall i, j :: 0 <= i < j < |made| ==> made[i] != made[j])
  }

  /** Handling a name whose product exists adds its line under id `last`. */
  lemma ProgressAdd(products: map<int, Product>, orderId: int, entries: map<string, int>,
                    table: map<int, OrderProduct>, next: int,
                    lines: map<int, OrderProduct>, last: int, done: set<string>, made: seq<string>, name: string, pid: int)
    requires KeysBelow(table, next)
    requires Progress(products, orderId, entries, table, next, lines, last, done, made)
    requires name in entries && name !in done && pid in products && products[pid].name == name
    ensures Progress(products, orderId, entries, table, next,
                     lines[last := OrderProduct(orderId, pid, entries[name])], last + 1, done + {name}, made + [name])
  {
    var lines' := lines[last := OrderProduct(orderId, pid, entries[name])];
    var made' := made + [name];
    assert last !in table;
    forall id | next <= id < last + 1
      ensures LineFor(products, orderId, entries, lines'[id]) && NameOf(products, lines'[id]) == made'[id - next]
    {
      if id < last {
        assert made'[id - next] == made[id - next];
      }
    }
    forall i, j | 0 <= i < j < |made'|
      ensures made'[i] != made'[j]
    {
      if j == |made| {
        assert made[i] in done;
      }
    }
  }

  /** Handling a name no product has adds nothing. */
  lemma ProgressSkip(products: map<int, Product>, orderId: int, entries: map<string, int>,
                     table: map<int, OrderProduct>, next: int,
                     lines: map<int, OrderProduct>, last: int, done: set<string>, made: seq<string>, name: string)
    requires Progress(products, orderId, entries, table, next, lines, last, done, made)
    requires !Known(products, name)
    ensures Progress(products, orderId, entries, table, next, lines, last, done + {name}, made)
  {
  }

  /** Once every name is handled, the new lines are exactly the known names, each once. */
  lemma ProgressDone(products: map<int, Product>, orderId: int, entries: map<string, int>,
                     table: map<int, OrderProduct>, next: int,
                     lines: map<int, OrderProduct>, last: int, made: seq<string>)
    requires KeysBelow(table, next)
    requires Progress(products, orderId, entries, table, next, lines, last, entries.Keys, made)
    ensures KeysBelow(lines, last) && next <= last
    ensures forall id :: id in lines <==> id in table || next <= id < last
    ensures forall id :: id in table ==> lines[id] == table[id]
    ensures forall id :: next <= id < last ==> LineFor(products, orderId, entries, lines[id])
    ensures forall name :: name in entries && Known(products, name) ==> name in LineNames(products, lines, next, last)
    ensures var names := LineNames(products, lines, next, last);
      forall i, j :: 0 <= i < j < |names| ==> names[i] != names[j]
  {
    var names := LineNames(products, lines, next, last);
    assert names == made by {
      forall k | 0 <= k < |made|
        ensures names[k] == made[k]
      {
        assert NameOf(products, lines[next + k]) == made[next + k - next];
      }
    }
  }

  /** One turn of the save loop: the line of `name`, when a product has that name. */
  method AddLine(products: map<int, Product>, table: map<int, OrderProduct>, next: int, orderId: int, entries: map<string, int>,
                 lines: map<int, OrderProduct>, last: int, ghost done: set<string>, ghost made: seq<string>, name: string)
    returns (lines': map<int, OrderProduct>, last': int, ghost made': seq<string>)
    requires KeysBelow(table, next)
    requires Progress(products, orderId, entries, table, next, lines, last, done, made)
    requires name in entries && name !in done
    ensures Progress(products, orderId, entries, table, next, lines', last', done + {name}, made')
  {
    var product := FindProduct(products, name);
    if product.Some? {
      ProgressAdd(products, orderId, entries, table, next, lines, last, done, made, name, product.value);
      lines', last', made' := lines[last := OrderProduct(orderId, product.value, entries[name])], last + 1, made + [name];
    } else {
      ProgressSkip(products, orderId, entries, table, next, lines, last, done, made, name);
      lines', last', made' := lines, last, made;
    }
  }

  /**
   * The loop of `saveExtractedOrder`, on the order-line table: one line of order `orderId`
   * per entry whose product exists, under fresh ids from `next` on; older lines stay as they are.
   */
  method AddLines(products: map<int, Product>, table: map<int, OrderProduct>, next: int, orderId: int, entries: map<string, int>)
    returns (lines: map<int, OrderProduct>, last: int)
    requires KeysBelow(table, next)
    ensures KeysBelow(lines, last) && next <= last
    ensures forall id :: id in lines <==> id in table || next <= id < last
    ensures forall id :: id in table ==> lines[id] == table[id]
    ensures forall id :: next <= id < last ==> LineFor(products, orderId, entries, lines[id])
    ensures forall name :: name in entries && Known(products, name) ==> name in LineNames(products, lines, next, last)
    ensures var names := LineNames(products, lines, next, last);
      forall i, j :: 0 <= i < j < |names| ==> names[i] != names[j]
  {
    lines, last := table, next;
    var remaining := entries.Keys;
    ghost var done: set<string> := {};
    ghost var made: seq<string> := [];
    while remaining != {}
      invariant remaining + done == entries.Keys && remaining !! done
      invariant Progress(products, orderId, entries, table, next, lines, last, done, made)
      decreases |remaining|
    {
      var name :| name in remaining;
      lines, last, made := AddLine(products, table, next, orderId, entries, lines, last, done, made, name);
      remaining := remaining - {name};
      done := done + {name};
    }
    ProgressDone(products, orderId, entries, table, next, lines, last, made);
  }
}
