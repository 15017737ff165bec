/** Re-emitting a parsed queue: the bytes come back exactly when the ones no reader looks at are
    zero. */
module VrfQueueReprint {
  import opened Machine
  import opened VrfQueue
  import opened VrfQueueTheorems

  // ---- Little-endian integers, read then written ----

  lemma {:induction false} LeNatFits(b: seq<byte>)
    ensures LeNat(b) < Pow256(|b|)
    decreases |b|
  {
    if b != [] {
      LeNatFits(b[1..]);
    }
  }

  lemma {:induction false} LeRewrites(b: seq<byte>)
    ensures LeBytes(LeNat(b), |b|) == b
    decreases |b|
  {
    if b != [] {
      LeRewrites(b[1..]);
      assert LeNat(b) % 256 == b[0] && LeNat(b) / 256 == LeNat(b[1..]);
      assert b == [b[0]] + b[1..];
    }
  }

  lemma FieldRewrites(body: seq<byte>, at: nat, width: nat)
    requires at + width <= |body|
    ensures LeBytes(ReadLe(body, at, width), width) == body[at..at + width]
    ensures ReadLe(body, at, width) < Pow256(width)
  {
    LeRewrites(body[at..at + width]);
    LeNatFits(body[at..at + width]);
    hide LeNat;
    hide LeBytes;
    hide Pow256;
  }

  // ---- One item ----

  /** The bytes of a slot that the reader skips: two behind the flags, and those up to the next
      aligned offset. */
  ghost predicate Padded(body: seq<byte>, v: View)
    requires NextPos(v) <= |body|
  {
    && body[v.pos + 94] == 0 && body[v.pos + 95] == 0
    && forall k :: v.pos + ITEM_SIZE + |v.item.disc| + |v.item.metas| + |v.item.args| <= k < NextPos(v) ==> body[k] == 0
  }

  /** What was read within the limits can be printed. */
  lemma ReadIsPrintable(body: seq<byte>, v: View)
    requires ItemAt(body, v)
    ensures Printable(v.item)
  {
    hide ReadLe;
    hide Pow256;
    hide LeBytes;
    FieldRewrites(body, v.pos, 8);
    FieldRewrites(body, v.pos + 84, 2);
  }

  lemma IdentityRewrites(body: seq<byte>, v: View)
    requires ItemAt(body, v)
    ensures Identity(v.item) == body[v.pos..v.pos + 72]
  {
    hide ReadLe;
    hide LeBytes;
    hide Pow256;
    var p := v.pos;
    FieldRewrites(body, p, 8);
    assert body[p..p + 72] == body[p..p + 8] + (body[p + 8..p + 40] + body[p + 40..p + 72]);
  }

  /** Three adjacent fields of one width are one slice. */
  lemma JoinThree(body: seq<byte>, at: nat, width: nat)
    requires at + 3 * width <= |body|
    ensures body[at..at + 3 * width]
         == body[at..at + width] + (body[at + width..at + width + width]
                                    + body[at + 2 * width..at + 2 * width + width])
  {
  }

  lemma OffsetsRewrite(body: seq<byte>, v: View)
    requires ItemAt(body, v)
    ensures Offsets(v.item, v.pos) == body[v.pos + 72..v.pos + 84]
  {
    hide ReadLe;
    hide LeBytes;
    hide Pow256;
    var p := v.pos;
    FieldRewrites(body, p + 72, 4);
    FieldRewrites(body, p + 76, 4);
    FieldRewrites(body, p + 80, 4);
    JoinThree(body, p + 72, 4);
  }

  lemma LengthsRewrite(body: seq<byte>, v: View)
    requires ItemAt(body, v)
    ensures Lengths(v.item) == body[v.pos + 84..v.pos + 90]
  {
    hide ReadLe;
    hide LeBytes;
    hide Pow256;
    var p := v.pos;
    FieldRewrites(body, p + 84, 2);
    FieldRewrites(body, p + 86, 2);
    FieldRewrites(body, p + 88, 2);
    assert |v.item.metas| / META_SIZE == ReadLe(body, p + 86, 2);
    JoinThree(body, p + 84, 2);
  }

  lemma FlagsRewriteIff(body: seq<byte>, v: View)
    requires ItemAt(body, v)
    ensures Flags(v.item) == body[v.pos + 90..v.pos + 96] <==> body[v.pos + 94] == 0 && body[v.pos + 95] == 0
  {
    var p := v.pos;
    var read := body[p + 90..p + 96];
    assert read[0] == body[p + 90] && read[1] == body[p + 91] && read[2] == body[p + 92];
    assert read[3] == body[p + 93] && read[4] == body[p + 94] && read[5] == body[p + 95];
    hide ReadLe;
  }

  lemma RegionsRewriteIff(body: seq<byte>, v: View)
    requires ItemAt(body, v) && NextPos(v) <= |body|
    ensures Regions(v.item, v.pos) == body[v.pos + ITEM_SIZE..NextPos(v)] <==>
            forall k :: v.pos + ITEM_SIZE + |v.item.disc| + |v.item.metas| + |v.item.args| <= k < NextPos(v) ==>
              body[k] == 0
  {
    hide ReadLe;
    hide LeNat;
    hide AlignUp8;
    hide Zeros;
    var it := v.item;
    var discAt := v.pos + ITEM_SIZE;
    var padAt, next := discAt + |it.disc| + |it.metas| + |it.args|, NextPos(v);
    assert padAt <= next;
    hide NextPos;
    RegionsSplit(body, discAt, discAt + |it.disc|, discAt + |it.disc| + |it.metas|, padAt, next);
    SameTail(it.disc + (it.metas + it.args), Zeros(next - padAt), body[padAt..next]);
    LeftToRight(it.disc, it.metas, it.args, Zeros(next - padAt));
    ZerosIff(body, padAt, next);
  }

  lemma RegionsSplit(body: seq<byte>, a: nat, b: nat, c: nat, d: nat, e: nat)
    requires a <= b <= c <= d <= e <= |body|
    ensures body[a..e] == (body[a..b] + (body[b..c] + body[c..d])) + body[d..e]
  {
  }

  lemma LeftToRight(a: seq<byte>, b: seq<byte>, c: seq<byte>, rest: seq<byte>)
    ensures a + (b + (c + rest)) == (a + (b + c)) + rest
  {
  }

  lemma ZerosIff(body: seq<byte>, lo: nat, hi: nat)
    requires lo <= hi <= |body|
    ensures Zeros(hi - lo) == body[lo..hi] <==> forall k :: lo <= k < hi ==> body[k] == 0
  {
    if Zeros(hi - lo) == body[lo..hi] {
      forall k | lo <= k < hi
        ensures body[k] == 0
      {
        assert body[k] == body[lo..hi][k - lo];
      }
    }
  }

  lemma SameTail(front: seq<byte>, s: seq<byte>, t: seq<byte>)
    ensures front + s == front + t <==> s == t
  {
    assert (front + s)[|front|..] == s && (front + t)[|front|..] == t;
  }

  lemma SameSplit(a: seq<byte>, s: seq<byte>, b: seq<byte>, t: seq<byte>)
    requires |a| == |b|
    ensures a + s == b + t <==> a == b && s == t
  {
    assert (a + s)[..|a|] == a && (b + t)[..|a|] == b;
    assert (a + s)[|a|..] == s && (b + t)[|a|..] == t;
  }

  /** Printing an item that was read gives back its slot exactly when the skipped bytes are zero. */
  lemma ItemRewritesIff(body: seq<byte>, v: View)
    requires ItemAt(body, v) && NextPos(v) <= |body|
    ensures Printable(v.item)
    ensures PrintItem(v.item, v.pos) == body[v.pos..NextPos(v)] <==> Padded(body, v)
  {
    ReadIsPrintable(body, v);
    IdentityRewrites(body, v);
    OffsetsRewrite(body, v);
    LengthsRewrite(body, v);
    FlagsRewriteIff(body, v);
    RegionsRewriteIff(body, v);
    hide ItemAt;
    hide Identity;
    hide Offsets;
    hide Lengths;
    hide Flags;
    hide Regions;
    hide NextPos;
    var p := v.pos;
    SlotSplits(body, p, NextPos(v));
    SlotSplitsIff(Identity(v.item), Offsets(v.item, p), Lengths(v.item), Flags(v.item), Regions(v.item, p),
                  body[p + 90..p + 96], body[p + 96..NextPos(v)]);
  }

  lemma SlotSplits(body: seq<byte>, p: nat, next: nat)
    requires p + ITEM_SIZE <= next <= |body|
    ensures body[p..next] == body[p..p + 72] + (body[p + 72..p + 84] + (body[p + 84..p + 90]
                             + (body[p + 90..p + 96] + body[p + 96..next])))
  {
  }

  lemma SlotSplitsIff(a: seq<byte>, b: seq<byte>, c: seq<byte>, d: seq<byte>, e: seq<byte>, x: seq<byte>, y: seq<byte>)
    requires |d| == |x|
    ensures a + (b + (c + (d + e))) == a + (b + (c + (x + y))) <==> d == x && e == y
  {
    SameTail(a, b + (c + (d + e)), b + (c + (x + y)));
    SameTail(b, c + (d + e), c + (x + y));
    SameTail(c, d + e, x + y);
    SameSplit(d, e, x, y);
  }

  // ---- The live region ----

  function ItemsOf(views: seq<View>): (items: seq<Item>)
    ensures |items| == |views|
    ensures forall i :: 0 <= i < |views| ==> items[i] == views[i].item
  {
    if views == [] then [] else [views[0].item] + ItemsOf(views[1..])
  }

  lemma TilesArePrintable(body: seq<byte>, views: seq<View>, cur: nat, end: nat)
    requires Tiles(body, views, cur, end)
    ensures forall i :: 0 <= i < |views| ==> Printable(ItemsOf(views)[i])
  {
    hide Printable;
    hide ItemAt;
    hide Tiles;
    forall i | 0 <= i < |views|
      ensures Printable(ItemsOf(views)[i])
    {
      RegionsStayInside(body, views, cur, end, i);
      ReadIsPrintable(body, views[i]);
    }
  }

  ghost predicate AllPadded(body: seq<byte>, views: seq<View>) {
    forall i :: 0 <= i < |views| ==> NextPos(views[i]) <= |body| && Padded(body, views[i])
  }

  lemma AllPaddedSplits(body: seq<byte>, views: seq<View>)
    requires views != []
    ensures AllPadded(body, views) <==>
            NextPos(views[0]) <= |body| && Padded(body, views[0]) && AllPadded(body, views[1..])
  {
    hide NextPos;
    hide Padded;
    assert views == [views[0]] + views[1..];
  }

  lemma FirstPrinted(views: seq<View>, cur: nat)
    requires views != [] && views[0].pos == cur
    requires forall i :: 0 <= i < |views| ==> Printable(ItemsOf(views)[i])
    ensures forall i :: 0 <= i < |views| - 1 ==> Printable(ItemsOf(views[1..])[i])
    ensures PrintItems(ItemsOf(views), cur)
         == PrintItem(views[0].item, cur) + PrintItems(ItemsOf(views[1..]), NextPos(views[0]))
  {
    hide Printable;
    hide PrintItem;
    hide NextPos;
    assert ItemsOf(views)[1..] == ItemsOf(views[1..]);
    assert views[0] == View(cur, views[0].item);
  }

  /** Printing the items that tile a region gives the region back exactly when every skipped byte in
      it is zero. */
  lemma {:induction false} RegionRewritesIff(body: seq<byte>, views: seq<View>, cur: nat, end: nat)
    requires Tiles(body, views, cur, end) && end <= |body|
    requires forall i :: 0 <= i < |views| ==> Printable(ItemsOf(views)[i])
    ensures cur <= end && |PrintItems(ItemsOf(views), cur)| == end - cur
    ensures PrintItems(ItemsOf(views), cur) == body[cur..end] <==> AllPadded(body, views)
    decreases |views|
  {
    hide Printable;
    hide ItemAt;
    hide NextPos;
    hide PrintItem;
    hide Padded;
    if views != [] {
      var v, next := views[0], NextPos(views[0]);
      var rest := views[1..];
      AllPaddedSplits(body, views);
      FirstPrinted(views, cur);
      hide AllPadded;
      hide PrintItems;
      hide ItemsOf;
      TilesAdvance(body, rest, next, end);
      RegionRewritesIff(body, rest, next, end);
      hide Tiles;
      ItemRewritesIff(body, v);
      Adjacent(body, cur, next, end);
      SameSplit(PrintItem(v.item, cur), PrintItems(ItemsOf(rest), next), body[cur..next], body[next..end]);
    }
  }

  lemma Adjacent(body: seq<byte>, lo: nat, mid: nat, hi: nat)
    requires lo <= mid <= hi <= |body|
    ensures body[lo..hi] == body[lo..mid] + body[mid..hi]
  {
  }

  // ---- The whole account ----

  /** The six header bytes no reader looks at. */
  ghost predicate HeaderPadded(body: seq<byte>)
    requires ITEMS_START <= |body|
  {
    forall k :: 10 <= k < ITEMS_START ==> body[k] == 0
  }

  /** The account up to its first item. */
  function HeaderBytes(declared: nat, cursor: nat, index: byte, paused: byte): (b: seq<byte>)
    ensures |b| == 8 + ITEMS_START
  {
    QUEUE_DISCRIMINATOR + (LeBytes(declared, 4) + (LeBytes(cursor, 4) + [index, paused, 0, 0, 0, 0, 0, 0]))
  }

  lemma EmitIsHeaderAndItems(items: seq<Item>, declared: nat, index: byte, paused: byte, stale: seq<byte>)
    requires forall i :: 0 <= i < |items| ==> Printable(items[i])
    ensures var printed := PrintItems(items, ITEMS_START);
            Emit(items, declared, index, paused, stale)
            == HeaderBytes(declared, ITEMS_START + |printed|, index, paused) + (printed + stale)
  {
    hide Printable;
    hide PrintItems;
    hide LeBytes;
    var printed := PrintItems(items, ITEMS_START);
    FourParts(QUEUE_DISCRIMINATOR, LeBytes(declared, 4), LeBytes(ITEMS_START + |printed|, 4),
              [index, paused, 0, 0, 0, 0, 0, 0], printed + stale);
  }

  lemma FourParts(a: seq<byte>, b: seq<byte>, c: seq<byte>, d: seq<byte>, rest: seq<byte>)
    ensures a + (b + (c + (d + rest))) == (a + (b + (c + d))) + rest
  {
  }

  lemma ReservedIff(body: seq<byte>, fixed: seq<byte>)
    requires ITEMS_START <= |body| && fixed == [body[8], body[9], 0, 0, 0, 0, 0, 0]
    ensures fixed == body[8..16] <==> HeaderPadded(body)
  {
    var read := body[8..16];
    assert forall k :: 0 <= k < 8 ==> read[k] == body[8 + k];
    if HeaderPadded(body) {
      assert forall k :: 0 <= k < 8 ==> fixed[k] == read[k];
    }
    if fixed == read {
      forall k | 10 <= k < ITEMS_START
        ensures body[k] == 0
      {
        assert read[k - 8] == fixed[k - 8];
      }
    }
  }

  lemma HeaderRewritesIff(acc: seq<byte>)
    requires ParseHeader(acc).Ok? && 8 + ITEMS_START <= |acc|
    ensures var h := ParseHeader(acc).value;
            HeaderBytes(h.itemCount, h.cursor, h.index, h.paused) == acc[..8 + ITEMS_START] <==> HeaderPadded(acc[8..])
  {
    var h, body := ParseHeader(acc).value, acc[8..];
    FieldRewrites(body, 0, 4);
    FieldRewrites(body, 4, 4);
    hide ReadLe;
    hide LeBytes;
    var fixed := [h.index, h.paused, 0, 0, 0, 0, 0, 0];
    ReservedIff(body, fixed);
    hide HeaderPadded;
    HeaderSplits(acc);
    SameTail(acc[..8], body[0..4] + (body[4..8] + fixed), body[0..4] + (body[4..8] + body[8..16]));
    SameTail(body[0..4], body[4..8] + fixed, body[4..8] + body[8..16]);
    SameTail(body[4..8], fixed, body[8..16]);
  }

  lemma HeaderSplits(acc: seq<byte>)
    requires 8 + ITEMS_START <= |acc|
    ensures var body := acc[8..];
            acc[..8 + ITEMS_START] == acc[..8] + (body[0..4] + (body[4..8] + body[8..16]))
  {
  }

  lemma AccountSplits(acc: seq<byte>, end: nat)
    requires ITEMS_START <= end && 8 + end <= |acc|
    ensures var body := acc[8..];
            acc == acc[..8 + ITEMS_START] + (body[ITEMS_START..end] + body[end..])
  {
  }

  lemma CursorInside(acc: seq<byte>)
    requires ParseHeader(acc).Ok? && ParseHeader(acc).value.cursor != 0
    ensures var h := ParseHeader(acc).value;
            8 <= |acc| && ITEMS_START <= h.cursor == LiveEnd(h) <= |acc| - 8
  {
    hide ReadLe;
  }

  lemma RejoinsIff(acc: seq<byte>, end: nat, header: seq<byte>, printed: seq<byte>)
    requires ITEMS_START <= end && 8 + end <= |acc| && |header| == 8 + ITEMS_START && |printed| == end - ITEMS_START
    ensures header + (printed + acc[8..][end..]) == acc <==>
            header == acc[..8 + ITEMS_START] && printed == acc[8..][ITEMS_START..end]
  {
    AccountSplits(acc, end);
    var live, stale := acc[8..][ITEMS_START..end], acc[8..][end..];
    SameSplit(header, printed + stale, acc[..8 + ITEMS_START], live + stale);
    SameSplit(printed, stale, live, stale);
  }

  lemma TiledReprintsIff(acc: seq<byte>, h: Header, views: seq<View>)
    requires ITEMS_START <= h.cursor && 8 + h.cursor <= |acc| && Tiles(acc[8..], views, ITEMS_START, h.cursor)
    ensures forall i :: 0 <= i < |views| ==> Printable(ItemsOf(views)[i])
    ensures Emit(ItemsOf(views), h.itemCount, h.index, h.paused, acc[8..][h.cursor..]) == acc <==>
            && HeaderBytes(h.itemCount, h.cursor, h.index, h.paused) == acc[..8 + ITEMS_START]
            && AllPadded(acc[8..], views)
  {
    hide Tiles;
    hide Printable;
    hide PrintItems;
    hide ItemsOf;
    hide AllPadded;
    hide HeaderBytes;
    hide Emit;
    var body, items := acc[8..], ItemsOf(views);
    TilesArePrintable(body, views, ITEMS_START, h.cursor);
    RegionRewritesIff(body, views, ITEMS_START, h.cursor);
    EmitIsHeaderAndItems(items, h.itemCount, h.index, h.paused, body[h.cursor..]);
    RejoinsIff(acc, h.cursor, HeaderBytes(h.itemCount, h.cursor, h.index, h.paused), PrintItems(items, ITEMS_START));
  }

  /** Any account that parses, whatever lies past its cursor: writing its header and its items out
      again, with the stale bytes copied across, reproduces it byte for byte exactly when every byte
      the reader skips is zero. */
  lemma ReprintsIff(acc: seq<byte>, views: seq<View>)
    requires ParseHeader(acc).Ok? && ParseHeader(acc).value.cursor != 0
    requires Walk(acc[8..], ITEMS_START, LiveEnd(ParseHeader(acc).value)) == Ok(views)
    ensures forall i :: 0 <= i < |views| ==> Printable(ItemsOf(views)[i])
    ensures var h, body := ParseHeader(acc).value, acc[8..];
            && ITEMS_START <= h.cursor <= |body|
            && (Emit(ItemsOf(views), h.itemCount, h.index, h.paused, body[h.cursor..]) == acc <==>
                HeaderPadded(body) && AllPadded(body, views))
  {
    hide Walk;
    hide Tiles;
    hide Printable;
    hide ItemsOf;
    hide AllPadded;
    hide HeaderPadded;
    hide HeaderBytes;
    hide Emit;
    hide ParseHeader;
    CursorInside(acc);
    var h := ParseHeader(acc).value;
    HeaderRewritesIff(acc);
    WalkIff(acc[8..], ITEMS_START, h.cursor, views);
    TiledReprintsIff(acc, h, views);
  }
}
