/** What an answer about the oracle queue proves: the live region is tiled by the items read, the
    verdict is about those items, and a printed queue reads back. */
module VrfQueueTheorems {
  import opened Machine
  import opened VrfQueue

  // ---- The layout, stated on the bytes ----

  /** The bytes at `v.pos` are this item: fixed fields in place, and the three regions directly
      behind them, in order, within the provider's limits and inside the account. */
  ghost predicate ItemAt(body: seq<byte>, v: View) {
    var p, it := v.pos, v.item;
    var discEnd := p + 96 + |it.disc|;
    var metasEnd := discEnd + |it.metas|;
    && metasEnd + |it.args| <= |body|
    && ReadLe(body, p, 8) == it.slot
    && body[p + 8..p + 40] == it.id && body[p + 40..p + 72] == it.program
    && ReadLe(body, p + 72, 4) == p + 96
    && ReadLe(body, p + 76, 4) == discEnd
    && ReadLe(body, p + 80, 4) == metasEnd
    && ReadLe(body, p + 84, 2) == |it.disc|
    && ReadLe(body, p + 86, 2) * 33 == |it.metas| <= 25 * 33
    && ReadLe(body, p + 88, 2) == |it.args| <= 512
    && body[p + 90] == it.priority && body[p + 91] == it.used
    && body[p + 92] == it.identityMode && body[p + 93] == it.identityBump
    && body[p + 96..discEnd] == it.disc
    && body[discEnd..metasEnd] == it.metas
    && body[metasEnd..metasEnd + |it.args|] == it.args
  }

  /** The items cover `[cur, end)` back to back, each from an offset to the next aligned one. */
  ghost predicate Tiles(body: seq<byte>, views: seq<View>, cur: nat, end: nat) {
    if views == [] then cur == end
    else
      && views[0].pos == cur && NextPos(views[0]) <= end
      && ItemAt(body, views[0])
      && Tiles(body, views[1..], NextPos(views[0]), end)
  }

  lemma ReadItemIff(body: seq<byte>, p: nat, v: View)
    requires p + ITEM_SIZE <= |body|
    ensures ReadItem(body, p) == Ok(v) <==> v.pos == p && ItemAt(body, v)
  {
    hide LeNat;
  }

  lemma {:induction false} TilesAdvance(body: seq<byte>, views: seq<View>, cur: nat, end: nat)
    requires Tiles(body, views, cur, end)
    ensures cur <= end
    decreases |views|
  {
    if views != [] {
      TilesAdvance(body, views[1..], NextPos(views[0]), end);
    }
  }

  /** The walk succeeds with exactly the items that tile the live region, and only when some do. */
  lemma {:induction false} WalkIff(body: seq<byte>, cur: nat, end: nat, views: seq<View>)
    requires end <= |body| || end <= cur
    ensures Walk(body, cur, end) == Ok(views) <==> Tiles(body, views, cur, end)
    decreases end - cur
  {
    hide ReadItem;
    hide ItemAt;
    hide NextPos;
    if cur + ITEM_SIZE <= end {
      if views != [] && views[0].pos == cur {
        ReadItemIff(body, cur, views[0]);
        WalkIff(body, NextPos(views[0]), end, views[1..]);
        assert views == [views[0]] + views[1..];
      }
    }
  }

  /** Why an item is refused: a region longer than the provider allows, before one that ends outside
      the account, before three that do not follow each other from the end of the fixed item. */
  lemma ReadItemRefuses(body: seq<byte>, p: nat)
    requires p + 96 <= |body| && ReadItem(body, p).Err?
    ensures var disc, metas, args := ReadLe(body, p + 84, 2), 33 * ReadLe(body, p + 86, 2), ReadLe(body, p + 88, 2);
            ReadItem(body, p).error ==
              if metas > 825 || args > 512 then ItemExceedsProviderLimits
              else if || ReadLe(body, p + 72, 4) + disc > |body| || ReadLe(body, p + 76, 4) + metas > |body|
                      || ReadLe(body, p + 80, 4) + args > |body| then ItemOffsetOutOfBounds
              else ItemRegionsNotContiguous
  {
    hide LeNat;
  }

  /** Why a walk fails: items tile the region up to an offset where a whole item would still fit and
      none can be read, or where it would not and the region goes on or is overrun. */
  lemma {:induction false} WalkRefuses(body: seq<byte>, cur: nat, end: nat) returns (views: seq<View>, at: nat)
    requires (end <= |body| || end <= cur) && Walk(body, cur, end).Err?
    ensures Tiles(body, views, cur, at)
    ensures at + 96 <= end ==> at + 96 <= |body| && ReadItem(body, at) == Err(Walk(body, cur, end).error)
    ensures at + 96 > end ==> at != end && Walk(body, cur, end) == Err(TrailingBytes)
    decreases end - cur
  {
    hide ReadItem;
    hide ItemAt;
    hide NextPos;
    if cur + ITEM_SIZE <= end && ReadItem(body, cur).Ok? {
      var v := ReadItem(body, cur).value;
      ReadItemIff(body, cur, v);
      var rest;
      rest, at := WalkRefuses(body, NextPos(v), end);
      TilesAdvance(body, rest, NextPos(v), at);
      views := [v] + rest;
    } else {
      views, at := [], cur;
    }
  }

  /** Every region of every item lies inside that item's own slot, every slot inside the live
      region, and slots do not overlap. */
  lemma {:induction false} RegionsStayInside(body: seq<byte>, views: seq<View>, cur: nat, end: nat, i: nat)
    requires Tiles(body, views, cur, end) && i < |views|
    ensures var v := views[i];
            && cur <= v.pos && ItemAt(body, v)
            && v.pos + 96 + |v.item.disc| + |v.item.metas| + |v.item.args| <= NextPos(v) <= end
            && NextPos(v) < v.pos + 104 + |v.item.disc| + |v.item.metas| + |v.item.args| && NextPos(v) % 8 == 0
            && (i + 1 < |views| ==> views[i + 1].pos == NextPos(v))
    decreases |views|
  {
    hide ItemAt;
    if i > 0 {
      RegionsStayInside(body, views[1..], NextPos(views[0]), end, i - 1);
    }
  }

  // ---- The verdict ----

  lemma {:induction false} LiveMembers(views: seq<View>)
    ensures forall v :: v in Live(views) <==> v in views && v.item.used == 1
    decreases |views|
  {
    if views != [] {
      LiveMembers(views[1..]);
      assert views == [views[0]] + views[1..];
    }
  }

  /** The visitor's state after each of `items` in turn. */
  ghost function StateAfter<S, R>(visit: (S, View) -> (S, Option<R>), state: S, items: seq<View>): S {
    if items == [] then state
    else visit(StateAfter(visit, state, items[..|items| - 1]), items[|items| - 1]).0
  }

  lemma {:induction false} StateAfterFirst<S, R>(visit: (S, View) -> (S, Option<R>), state: S, v: View,
                                                 items: seq<View>)
    ensures StateAfter(visit, state, [v] + items) == StateAfter(visit, visit(state, v).0, items)
    decreases |items|
  {
    var all := [v] + items;
    if items == [] {
      assert all[..|all| - 1] == [] && all == [v];
    } else {
      StateAfterFirst(visit, state, v, items[..|items| - 1]);
      assert all[..|all| - 1] == [v] + items[..|items| - 1];
    }
  }

  /** What the visitor says of the `i`-th of `items`, having seen those before it. */
  ghost function AnswerAt<S, R>(visit: (S, View) -> (S, Option<R>), state: S, items: seq<View>, i: nat): Option<R>
    requires i < |items|
  {
    visit(StateAfter(visit, state, items[..i]), items[i]).1
  }

  lemma AnswerAfterFirst<S, R>(visit: (S, View) -> (S, Option<R>), state: S, v: View, items: seq<View>, i: nat)
    requires i < |items|
    ensures AnswerAt(visit, state, [v] + items, i + 1) == AnswerAt(visit, visit(state, v).0, items, i)
  {
    StateAfterFirst(visit, state, v, items[..i]);
    assert ([v] + items)[..i + 1] == [v] + items[..i];
  }

  /** The visitor is handed the live items in order, its state passing from one to the next: every one
      of them if it never answers, and otherwise those up to its first answer. */
  lemma {:induction false} VisitHands<S, R>(visit: (S, View) -> (S, Option<R>), state: S, live: seq<View>)
    ensures var so := Visit(visit, state, live);
            var n := |so.handed|;
            && so.handed <= live && so.state == StateAfter(visit, state, so.handed)
            && (so.found.None? ==> so.handed == live)
            && (so.found.Some? ==> 0 < n && AnswerAt(visit, state, so.handed, n - 1) == so.found)
            && forall i :: 0 <= i < n ==> (AnswerAt(visit, state, so.handed, i).Some? <==> so.found.Some? && i == n - 1)
    decreases |live|
  {
    if live != [] {
      var v := live[0];
      var next := visit(state, v).0;
      var so := Visit(visit, state, live);
      assert [v][..0] == [];
      StateAfterFirst(visit, state, v, []);
      if visit(state, v).1.None? {
        VisitHands(visit, next, live[1..]);
        var rest := Visit(visit, next, live[1..]).handed;
        assert so.handed == [v] + rest && live == [v] + live[1..];
        StateAfterFirst(visit, state, v, rest);
        assert so.handed[..0] == [];
        forall i | 0 <= i < |rest|
          ensures AnswerAt(visit, state, so.handed, i + 1) == AnswerAt(visit, next, rest, i)
        {
          AnswerAfterFirst(visit, state, v, rest, i);
        }
        forall i | 0 < i < |so.handed|
          ensures AnswerAt(visit, state, so.handed, i) == AnswerAt(visit, next, rest, i - 1)
        {
          assert AnswerAt(visit, state, so.handed, (i - 1) + 1) == AnswerAt(visit, next, rest, i - 1);
        }
      }
    }
  }

  /** Four bytes as a number, the first weighing one. */
  function Word(a: nat, b: nat, c: nat, d: nat): nat {
    a + 256 * b + 65_536 * c + 16_777_216 * d
  }

  /** The account begins as a queue does, in its own bytes: the discriminator, two little-endian words,
      two flag bytes, and a cursor that is either never written, with nothing declared, or inside. */
  ghost predicate HeaderAt(acc: seq<byte>, h: Header) {
    && 20 <= |acc| && acc[..8] == [3, 0, 0, 0, 0, 0, 0, 0]
    && h.itemCount == Word(acc[8], acc[9], acc[10], acc[11])
    && h.cursor == Word(acc[12], acc[13], acc[14], acc[15])
    && h.index == acc[16] && h.paused == acc[17]
    && ((h.cursor == 0 && h.itemCount == 0) || 16 <= h.cursor <= |acc| - 8)
  }

  /** The first byte weighs one, each next one 256 times as much. */
  lemma ReadLeWeighs(b: seq<byte>, at: nat)
    requires at + 2 <= |b|
    ensures ReadLe(b, at, 2) == Word(b[at], b[at + 1], 0, 0)
    ensures at + 4 <= |b| ==> ReadLe(b, at, 4) == Word(b[at], b[at + 1], b[at + 2], b[at + 3])
    ensures at + 8 <= |b| ==> ReadLe(b, at, 8) == ReadLe(b, at, 4) + 0x1_0000_0000 * ReadLe(b, at + 4, 4)
  {
    hide ReadLe;
    ReadLeTwo(b, at);
    Pow256Values();
    if at + 4 <= |b| {
      ReadLeTwo(b, at + 2);
      LeNatSplits(b, at, 2, 2);
    }
    if at + 8 <= |b| {
      LeNatSplits(b, at, 4, 4);
    }
  }

  lemma ReadLeTwo(b: seq<byte>, at: nat)
    requires at + 2 <= |b|
    ensures ReadLe(b, at, 2) == Word(b[at], b[at + 1], 0, 0)
  {
    hide ReadLe;
    LeNatSplits(b, at, 1, 1);
    LeNatSplits(b, at, 0, 1);
    LeNatSplits(b, at + 1, 0, 1);
    assert Pow256(1) == 256;
  }

  /** A little-endian number is its low part plus its high part shifted. */
  lemma {:induction false} LeNatSplits(b: seq<byte>, at: nat, low: nat, high: nat)
    requires at + low + high <= |b|
    ensures ReadLe(b, at, low + high) == ReadLe(b, at, low) + Pow256(low) * ReadLe(b, at + low, high)
    ensures low == 0 && high == 1 ==> ReadLe(b, at, 1) == b[at]
    decreases low
  {
    if low == 0 {
      if high == 1 {
        assert b[at..at + 1] == [b[at]] && [b[at]][1..] == [];
      }
    } else {
      LeNatSplits(b, at + 1, low - 1, high);
      assert b[at..at + low][1..] == b[at + 1..at + low];
      assert b[at..at + low + high][1..] == b[at + 1..at + low + high];
      Associate(256, Pow256(low - 1), ReadLe(b, at + low, high));
    }
  }

  lemma Associate(a: int, b: int, c: int)
    ensures a * (b * c) == (a * b) * c
  {
  }

  /** Exactly which accounts have a header, and what it says. */
  lemma ParseHeaderIff(acc: seq<byte>, h: Header)
    ensures ParseHeader(acc) == Ok(h) <==> HeaderAt(acc, h)
  {
    if 20 <= |acc| {
      ReadLeWeighs(acc[8..], 0);
      ReadLeWeighs(acc[8..], 4);
      hide ReadLe;
    }
  }

  /** Why an account has none: it is no queue, it is cut short, its cursor points outside the items, or
      it declares items without a cursor. */
  lemma ParseHeaderRefuses(acc: seq<byte>)
    requires ParseHeader(acc).Err?
    ensures ParseHeader(acc).error ==
              if |acc| < 8 || acc[..8] != [3, 0, 0, 0, 0, 0, 0, 0] then NotAQueueAccount
              else if |acc| < 20 then TruncatedHeader
              else if Word(acc[12], acc[13], acc[14], acc[15]) == 0 then CursorInconsistentWithItemCount
              else CursorOutOfBounds
  {
    if 20 <= |acc| {
      ReadLeWeighs(acc[8..], 4);
      hide ReadLe;
      hide Word;
    }
  }

  ghost predicate Holds(body: seq<byte>, views: seq<View>, h: Header) {
    Tiles(body, views, 16, if h.cursor == 0 then 16 else h.cursor) && |Live(views)| == h.itemCount
  }

  /** For any bytes at all: the predicate answers exactly when there is a header and some items tile
      the live region with as many used ones as it declares. Then it answers whether a used item
      targets the program with arguments beginning with the key, and its statistics are of the whole
      region. */
  lemma BatchVerdict(acc: seq<byte>, program: seq<byte>, key: seq<byte>)
    requires |program| == 32 && |key| == 32
    ensures var r := BatchRequestIsLive(acc, program, key);
            && (r.Ok? <==> exists h, views :: HeaderAt(acc, h) && Holds(acc[8..], views, h))
            && (r.Ok? ==> forall h, views :: HeaderAt(acc, h) && Holds(acc[8..], views, h) ==>
                  && (r.value.0 <==> exists v: View :: v in views && v.item.used == 1
                                                       && v.item.program == program && key <= v.item.args)
                  && r.value.1 == Stats(|views|, h.itemCount, h.itemCount, if h.cursor == 0 then 16 else h.cursor))
  {
    forall h
      ensures ParseHeader(acc) == Ok(h) <==> HeaderAt(acc, h)
    {
      ParseHeaderIff(acc, h);
    }
    hide HeaderAt;
    if ParseHeader(acc).Ok? {
      var h, body := ParseHeader(acc).value, acc[8..];
      assert HeaderAt(acc, h);
      hide ParseHeader;
      var walk := Walk(body, ITEMS_START, LiveEnd(h));
      forall views: seq<View>
        ensures Tiles(body, views, 16, LiveEnd(h)) <==> walk == Ok(views)
      {
        WalkIff(body, ITEMS_START, LiveEnd(h), views);
      }
      hide Walk;
      hide Tiles;
      if walk.Ok? {
        LiveMembers(walk.value);
        assert Holds(body, walk.value, h) <==> |Live(walk.value)| == h.itemCount;
        TargetFound(Live(walk.value), program, key);
      }
      hide Live;
      hide Visit;
    }
  }

  /** The items tile the live region, but as many used ones as it declares they are not. */
  ghost predicate Miscounts(body: seq<byte>, views: seq<View>, h: Header) {
    Tiles(body, views, 16, if h.cursor == 0 then 16 else h.cursor) && |Live(views)| != h.itemCount
  }

  lemma WalkErrors(body: seq<byte>, cur: nat, end: nat)
    requires (end <= |body| || end <= cur) && Walk(body, cur, end).Err?
    ensures Walk(body, cur, end).error != ItemCountMismatch
  {
    var views, at := WalkRefuses(body, cur, end);
    if at + 96 <= end {
      ReadItemRefuses(body, at);
    }
    hide Walk;
    hide ReadItem;
    hide Tiles;
    hide ReadLe;
  }

  /** On any bytes, a miscount is reported exactly when there is a header and items tile the live region,
      but not as many used ones as it declares; whatever else is wrong is reported as such first. */
  lemma MiscountIff(acc: seq<byte>, program: seq<byte>, key: seq<byte>)
    requires |program| == 32 && |key| == 32
    ensures BatchRequestIsLive(acc, program, key) == Err(ItemCountMismatch) <==>
            exists h, views :: HeaderAt(acc, h) && Miscounts(acc[8..], views, h)
    ensures ParseHeader(acc).Err? ==> BatchRequestIsLive(acc, program, key) == Err(ParseHeader(acc).error)
  {
    forall h
      ensures ParseHeader(acc) == Ok(h) <==> HeaderAt(acc, h)
    {
      ParseHeaderIff(acc, h);
    }
    hide HeaderAt;
    if ParseHeader(acc).Err? {
      ParseHeaderRefuses(acc);
      hide ParseHeader;
    } else {
      var h, body := ParseHeader(acc).value, acc[8..];
      assert HeaderAt(acc, h);
      hide ParseHeader;
      if Walk(body, ITEMS_START, LiveEnd(h)).Err? {
        WalkErrors(body, ITEMS_START, LiveEnd(h));
      }
      forall views: seq<View>
        ensures Tiles(body, views, 16, LiveEnd(h)) <==> Walk(body, ITEMS_START, LiveEnd(h)) == Ok(views)
      {
        WalkIff(body, ITEMS_START, LiveEnd(h), views);
      }
      hide Walk;
      hide Tiles;
      if Walk(body, ITEMS_START, LiveEnd(h)).Ok? {
        var views := Walk(body, ITEMS_START, LiveEnd(h)).value;
        assert Miscounts(body, views, h) <==> |Live(views)| != h.itemCount;
      }
      hide Live;
      hide Visit;
    }
  }

  lemma {:induction false} TargetFound(live: seq<View>, program: seq<byte>, key: seq<byte>)
    ensures Visit(TargetVisitor(program, key), (), live).found.Some? <==>
            exists v :: v in live && Targets(v, program, key)
    decreases |live|
  {
    if live != [] {
      TargetFound(live[1..], program, key);
      assert live == [live[0]] + live[1..];
      assert TargetVisitor(program, key)((), live[0]).0 == ();
    }
  }

  // ---- The printer ----

  predicate Printable(it: Item) {
    && it.slot < Pow256(8) && |it.id| == 32 && |it.program| == 32
    && |it.disc| < Pow256(2)
    && |it.metas| % META_SIZE == 0 && |it.metas| <= MAX_CALLBACK_ACCOUNTS * META_SIZE
    && |it.args| <= MAX_CALLBACK_ARGS
  }

  function Zeros(n: nat): seq<byte> {
    seq(n, _ => 0)
  }

  function Identity(it: Item): seq<byte> {
    LeBytes(it.slot, 8) + (it.id + it.program)
  }

  function Offsets(it: Item, p: nat): seq<byte> {
    LeBytes(p + ITEM_SIZE, 4) +
    (LeBytes(p + ITEM_SIZE + |it.disc|, 4) + LeBytes(p + ITEM_SIZE + |it.disc| + |it.metas|, 4))
  }

  function Lengths(it: Item): seq<byte> {
    LeBytes(|it.disc|, 2) + (LeBytes(|it.metas| / META_SIZE, 2) + LeBytes(|it.args|, 2))
  }

  function Flags(it: Item): seq<byte> {
    [it.priority, it.used, it.identityMode, it.identityBump, 0, 0]
  }

  function Regions(it: Item, p: nat): seq<byte> {
    it.disc + (it.metas + (it.args +
      Zeros(NextPos(View(p, it)) - (p + ITEM_SIZE + |it.disc| + |it.metas| + |it.args|))))
  }

  /** One item as the provider writes it at offset `p`. */
  function PrintItem(it: Item, p: nat): (b: seq<byte>)
    requires Printable(it)
    ensures |b| == NextPos(View(p, it)) - p
  {
    Identity(it) + (Offsets(it, p) + (Lengths(it) + (Flags(it) + Regions(it, p))))
  }

  function PrintItems(items: seq<Item>, p: nat): seq<byte>
    requires forall i :: 0 <= i < |items| ==> Printable(items[i])
  {
    if items == [] then []
    else PrintItem(items[0], p) + PrintItems(items[1..], NextPos(View(p, items[0])))
  }

  function ViewsOf(items: seq<Item>, p: nat): (views: seq<View>)
    ensures |views| == |items|
  {
    if items == [] then []
    else [View(p, items[0])] + ViewsOf(items[1..], NextPos(View(p, items[0])))
  }

  /** A whole account: header, items from `ITEMS_START`, and any bytes past the cursor. */
  function Emit(items: seq<Item>, declared: nat, index: byte, paused: byte, stale: seq<byte>): seq<byte>
    requires forall i :: 0 <= i < |items| ==> Printable(items[i])
  {
    QUEUE_DISCRIMINATOR + (LeBytes(declared, 4) +
    (LeBytes(ITEMS_START + |PrintItems(items, ITEMS_START)|, 4) +
    ([index, paused, 0, 0, 0, 0, 0, 0] + (PrintItems(items, ITEMS_START) + stale))))
  }

  /** Reads one field off the front of what is left of the body. */
  lemma Peel(body: seq<byte>, at: nat, field: seq<byte>, rest: seq<byte>)
    requires at <= |body| && body[at..] == field + rest
    ensures at + |field| <= |body|
    ensures body[at..at + |field|] == field
    ensures body[at + |field|..] == rest
  {
    var tail := body[at..];
    assert tail[..|field|] == field && tail[|field|..] == rest;
    assert body[at..at + |field|] == tail[..|field|];
    assert body[at + |field|..] == tail[|field|..];
  }

  lemma Pow256Values()
    ensures Pow256(2) == 0x1_0000 && Pow256(4) == 0x1_0000_0000
  {
    assert Pow256(1) == 256;
    assert Pow256(3) == 256 * Pow256(2);
  }

  lemma PeelLe(body: seq<byte>, at: nat, x: nat, width: nat, rest: seq<byte>)
    requires at <= |body| && x < Pow256(width) && body[at..] == LeBytes(x, width) + rest
    ensures at + width <= |body|
    ensures ReadLe(body, at, width) == x
    ensures body[at + width..] == rest
  {
    Peel(body, at, LeBytes(x, width), rest);
    LeRoundTrip(x, width);
  }

  lemma IdentityAt(body: seq<byte>, it: Item, p: nat, rest: seq<byte>)
    requires Printable(it) && p <= |body| && body[p..] == Identity(it) + rest
    ensures p + 72 <= |body| && body[p + 72..] == rest
    ensures ReadLe(body, p, 8) == it.slot && body[p + 8..p + 40] == it.id && body[p + 40..p + 72] == it.program
  {
    hide LeNat;
    hide LeBytes;
    hide Pow256;
    assert Identity(it) + rest == LeBytes(it.slot, 8) + (it.id + (it.program + rest));
    PeelLe(body, p, it.slot, 8, it.id + (it.program + rest));
    Peel(body, p + 8, it.id, it.program + rest);
    Peel(body, p + 40, it.program, rest);
  }

  /** Three fields of one width, read off the front one after the other. */
  lemma PeelThree(body: seq<byte>, at: nat, a: seq<byte>, b: seq<byte>, c: seq<byte>, width: nat, rest: seq<byte>)
    requires |a| == |b| == |c| == width && at <= |body| && body[at..] == (a + (b + c)) + rest
    ensures at + 3 * width <= |body| && body[at + 3 * width..] == rest
    ensures body[at..at + width] == a && body[at + width..at + width + width] == b
    ensures body[at + 2 * width..at + 2 * width + width] == c
  {
    assert (a + (b + c)) + rest == a + (b + (c + rest));
    Peel(body, at, a, b + (c + rest));
    Peel(body, at + width, b, c + rest);
    Peel(body, at + 2 * width, c, rest);
  }

  lemma ThreeLe(body: seq<byte>, at: nat, x: nat, y: nat, z: nat, width: nat, rest: seq<byte>)
    requires at <= |body| && x < Pow256(width) && y < Pow256(width) && z < Pow256(width)
    requires body[at..] == (LeBytes(x, width) + (LeBytes(y, width) + LeBytes(z, width))) + rest
    ensures at + 3 * width <= |body| && body[at + 3 * width..] == rest
    ensures ReadLe(body, at, width) == x
    ensures ReadLe(body, at + width, width) == y && ReadLe(body, at + 2 * width, width) == z
  {
    hide LeNat;
    hide LeBytes;
    hide Pow256;
    PeelThree(body, at, LeBytes(x, width), LeBytes(y, width), LeBytes(z, width), width, rest);
    LeRoundTrip(x, width);
    LeRoundTrip(y, width);
    LeRoundTrip(z, width);
  }

  lemma FlagsAt(body: seq<byte>, it: Item, p: nat, rest: seq<byte>)
    requires p + 90 <= |body| && body[p + 90..] == Flags(it) + rest
    ensures p + ITEM_SIZE <= |body| && body[p + ITEM_SIZE..] == rest
    ensures body[p + 90] == it.priority && body[p + 91] == it.used
    ensures body[p + 92] == it.identityMode && body[p + 93] == it.identityBump
  {
    Peel(body, p + 90, Flags(it), rest);
    var field := body[p + 90..p + 96];
    assert body[p + 90] == field[0] && body[p + 91] == field[1];
    assert body[p + 92] == field[2] && body[p + 93] == field[3];
  }

  lemma PeelFour(body: seq<byte>, at: nat, a: seq<byte>, b: seq<byte>, c: seq<byte>, d: seq<byte>, rest: seq<byte>)
    requires at <= |body| && body[at..] == (a + (b + (c + d))) + rest
    ensures var bs, cs, ds := at + |a|, at + |a| + |b|, at + |a| + |b| + |c|;
            && ds + |d| <= |body| && body[ds + |d|..] == rest
            && body[at..bs] == a && body[bs..cs] == b && body[cs..ds] == c
  {
    assert (a + (b + (c + d))) + rest == a + (b + (c + (d + rest)));
    Peel(body, at, a, b + (c + (d + rest)));
    Peel(body, at + |a|, b, c + (d + rest));
    Peel(body, at + |a| + |b|, c, d + rest);
    Peel(body, at + |a| + |b| + |c|, d, rest);
  }

  lemma RegionsAt(body: seq<byte>, it: Item, p: nat, rest: seq<byte>)
    requires p + ITEM_SIZE <= |body| && body[p + ITEM_SIZE..] == Regions(it, p) + rest
    ensures var discEnd := p + ITEM_SIZE + |it.disc|;
            var metasEnd := discEnd + |it.metas|;
            && metasEnd + |it.args| <= |body|
            && body[p + ITEM_SIZE..discEnd] == it.disc
            && body[discEnd..metasEnd] == it.metas
            && body[metasEnd..metasEnd + |it.args|] == it.args
            && NextPos(View(p, it)) <= |body| && body[NextPos(View(p, it))..] == rest
  {
    var pad := Zeros(NextPos(View(p, it)) - (p + ITEM_SIZE + |it.disc| + |it.metas| + |it.args|));
    hide Zeros;
    hide AlignUp8;
    PeelFour(body, p + ITEM_SIZE, it.disc, it.metas, it.args, pad, rest);
  }

  lemma FiveParts(a: seq<byte>, b: seq<byte>, c: seq<byte>, d: seq<byte>, e: seq<byte>, rest: seq<byte>)
    ensures (a + (b + (c + (d + e)))) + rest == a + (b + (c + (d + (e + rest))))
  {
  }

  /** A printed item is laid out at its offset. */
  lemma PrintedItemAt(body: seq<byte>, it: Item, p: nat, rest: seq<byte>)
    requires Printable(it) && p <= |body| && body[p..] == PrintItem(it, p) + rest
    requires NextPos(View(p, it)) < Pow256(4)
    ensures ItemAt(body, View(p, it))
    ensures NextPos(View(p, it)) <= |body| && body[NextPos(View(p, it))..] == rest
  {
    Pow256Values();
    hide Identity;
    hide Offsets;
    hide Lengths;
    hide Flags;
    hide Regions;
    hide ReadLe;
    hide Pow256;
    hide LeBytes;
    hide LeNat;
    var r4 := Regions(it, p) + rest;
    var r3 := Flags(it) + r4;
    var r2 := Lengths(it) + r3;
    var r1 := Offsets(it, p) + r2;
    FiveParts(Identity(it), Offsets(it, p), Lengths(it), Flags(it), Regions(it, p), rest);
    IdentityAt(body, it, p, r1);
    OffsetsAt(body, it, p, r2);
    LengthsAt(body, it, p, r3);
    FlagsAt(body, it, p, r4);
    RegionsAt(body, it, p, rest);
  }

  lemma OffsetsAt(body: seq<byte>, it: Item, p: nat, rest: seq<byte>)
    requires p + 72 <= |body| && body[p + 72..] == Offsets(it, p) + rest
    requires p + ITEM_SIZE + |it.disc| + |it.metas| < Pow256(4)
    ensures p + 84 <= |body| && body[p + 84..] == rest
    ensures ReadLe(body, p + 72, 4) == p + ITEM_SIZE
    ensures ReadLe(body, p + 76, 4) == p + ITEM_SIZE + |it.disc|
    ensures ReadLe(body, p + 80, 4) == p + ITEM_SIZE + |it.disc| + |it.metas|
  {
    ThreeLe(body, p + 72, p + ITEM_SIZE, p + ITEM_SIZE + |it.disc|,
            p + ITEM_SIZE + |it.disc| + |it.metas|, 4, rest);
  }

  lemma LengthsAt(body: seq<byte>, it: Item, p: nat, rest: seq<byte>)
    requires Printable(it)
    requires p + 84 <= |body| && body[p + 84..] == Lengths(it) + rest
    ensures p + 90 <= |body| && body[p + 90..] == rest
    ensures ReadLe(body, p + 84, 2) == |it.disc|
    ensures ReadLe(body, p + 86, 2) * META_SIZE == |it.metas|
    ensures ReadLe(body, p + 88, 2) == |it.args|
  {
    Pow256Values();
    ThreeLe(body, p + 84, |it.disc|, |it.metas| / META_SIZE, |it.args|, 2, rest);
  }

  /** Printed items tile the region they were printed into. */
  lemma {:induction false} PrintedTiles(body: seq<byte>, items: seq<Item>, p: nat, stale: seq<byte>)
    requires forall i :: 0 <= i < |items| ==> Printable(items[i])
    requires p <= |body| && body[p..] == PrintItems(items, p) + stale
    requires p + |PrintItems(items, p)| < Pow256(4)
    ensures Tiles(body, ViewsOf(items, p), p, p + |PrintItems(items, p)|)
    decreases |items|
  {
    hide ItemAt;
    hide NextPos;
    hide Pow256;
    if items != [] {
      var next := NextPos(View(p, items[0]));
      var tail := PrintItems(items[1..], next);
      assert PrintItems(items, p) + stale == PrintItem(items[0], p) + (tail + stale);
      PrintedItemAt(body, items[0], p, tail + stale);
      PrintedTiles(body, items[1..], next, stale);
      assert ViewsOf(items, p)[1..] == ViewsOf(items[1..], next);
    }
  }

  lemma HeaderFields(body: seq<byte>, declared: nat, end: nat, fixed: seq<byte>, rest: seq<byte>)
    requires declared < Pow256(4) && end < Pow256(4) && |fixed| == 8
    requires body == LeBytes(declared, 4) + (LeBytes(end, 4) + (fixed + rest))
    ensures 16 <= |body| && body[16..] == rest
    ensures ReadLe(body, 0, 4) == declared && ReadLe(body, 4, 4) == end
    ensures body[8] == fixed[0] && body[9] == fixed[1]
  {
    hide LeNat;
    hide LeBytes;
    hide Pow256;
    assert body[0..] == body;
    PeelLe(body, 0, declared, 4, LeBytes(end, 4) + (fixed + rest));
    PeelLe(body, 4, end, 4, fixed + rest);
    Peel(body, 8, fixed, rest);
    assert body[8] == body[8..16][0] && body[9] == body[8..16][1];
  }

  lemma EmittedHeader(items: seq<Item>, declared: nat, index: byte, paused: byte, stale: seq<byte>)
    requires forall i :: 0 <= i < |items| ==> Printable(items[i])
    requires declared < Pow256(4) && ITEMS_START + |PrintItems(items, ITEMS_START)| < Pow256(4)
    ensures var acc := Emit(items, declared, index, paused, stale);
            var end := ITEMS_START + |PrintItems(items, ITEMS_START)|;
            && 8 + end <= |acc| && ParseHeader(acc) == Ok(Header(declared, end, index, paused))
            && acc[8..][ITEMS_START..] == PrintItems(items, ITEMS_START) + stale
  {
    hide LeNat;
    hide LeBytes;
    hide ReadLe;
    hide Pow256;
    var acc := Emit(items, declared, index, paused, stale);
    var printed := PrintItems(items, ITEMS_START);
    hide PrintItems;
    var end := ITEMS_START + |printed|;
    var fixed := [index, paused, 0, 0, 0, 0, 0, 0];
    var body := LeBytes(declared, 4) + (LeBytes(end, 4) + (fixed + (printed + stale)));
    assert acc == QUEUE_DISCRIMINATOR + body;
    assert acc[..8] == QUEUE_DISCRIMINATOR && acc[8..] == body;
    HeaderFields(body, declared, end, fixed, printed + stale);
  }

  /** Any printable items, live or holes, whatever count is declared and whatever stale bytes
      follow the cursor: the walk finds exactly the printed items, so the scan hands over the live
      ones in order until it is answered, and its statistics describe the whole region either way. */
  lemma QueueRoundTrip<S, R>(items: seq<Item>, declared: nat, index: byte, paused: byte, stale: seq<byte>,
                             visit: (S, View) -> (S, Option<R>), state: S)
    requires forall i :: 0 <= i < |items| ==> Printable(items[i])
    requires declared < Pow256(4) && ITEMS_START + |PrintItems(items, ITEMS_START)| < Pow256(4)
    ensures var live := Live(ViewsOf(items, ITEMS_START));
            Scan(Emit(items, declared, index, paused, stale), visit, state)
            == Ok((Visit(visit, state, live).found,
                   Stats(|items|, |live|, declared, ITEMS_START + |PrintItems(items, ITEMS_START)|)))
    ensures var acc := Emit(items, declared, index, paused, stale);
            && 8 <= |acc| && ParseHeader(acc).Ok?
            && Walk(acc[8..], ITEMS_START, LiveEnd(ParseHeader(acc).value)) == Ok(ViewsOf(items, ITEMS_START))
  {
    hide Pow256;
    hide Emit;
    hide ParseHeader;
    EmittedHeader(items, declared, index, paused, stale);
    var body := Emit(items, declared, index, paused, stale)[8..];
    var end := ITEMS_START + |PrintItems(items, ITEMS_START)|;
    PrintedTiles(body, items, ITEMS_START, stale);
    WalkIff(body, ITEMS_START, end, ViewsOf(items, ITEMS_START));
  }

  /** The verdict on a printed queue is about the printed items, never about the stale bytes. */
  lemma PrintedVerdict(items: seq<Item>, index: byte, paused: byte, stale: seq<byte>,
                       program: seq<byte>, key: seq<byte>)
    requires |program| == 32 && |key| == 32
    requires forall i :: 0 <= i < |items| ==> Printable(items[i])
    requires ITEMS_START + |PrintItems(items, ITEMS_START)| < Pow256(4)
    requires |Live(ViewsOf(items, ITEMS_START))| < Pow256(4)
    ensures var declared := |Live(ViewsOf(items, ITEMS_START))|;
            var r := BatchRequestIsLive(Emit(items, declared, index, paused, stale), program, key);
            && r.Ok?
            && (r.value.0 <==> exists i :: 0 <= i < |items| && items[i].used == 1
                                           && items[i].program == program && key <= items[i].args)
  {
    hide Pow256;
    hide Emit;
    hide ParseHeader;
    hide Walk;
    hide NextPos;
    hide PrintItems;
    hide Printable;
    hide Live;
    hide Visit;
    var views := ViewsOf(items, ITEMS_START);
    QueueRoundTrip(items, |Live(views)|, index, paused, stale, TargetVisitor(program, key), ());
    TargetFound(Live(views), program, key);
    LiveMembers(views);
    ViewsCarryItems(items, ITEMS_START);
    if i: nat :| i < |items| && items[i].used == 1 && items[i].program == program && key <= items[i].args {
      assert views[i] in views && Targets(views[i], program, key);
    }
    if v :| v in views && v.item.used == 1 && Targets(v, program, key) {
      var i :| 0 <= i < |views| && views[i] == v;
      assert items[i] == v.item;
    }
  }

  lemma {:induction false} ViewsCarryItems(items: seq<Item>, p: nat)
    ensures forall i :: 0 <= i < |items| ==> ViewsOf(items, p)[i].item == items[i]
    decreases |items|
  {
    if items != [] {
      ViewsCarryItems(items[1..], NextPos(View(p, items[0])));
    }
  }
}
