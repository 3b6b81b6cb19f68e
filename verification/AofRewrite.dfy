/** The rewrite of a dataset into commands: chunked objects, every key, every database. */
module AofRewrite {
  import opened AofFormat

  const ITEMS_PER_CMD := 64

  function Flatten(items: seq<seq<string>>): seq<string> {
    if items == [] then [] else items[0] + Flatten(items[1..])
  }

  function Take(items: seq<seq<string>>): (n: nat)
    ensures n <= |items| && n <= ITEMS_PER_CMD && (items != [] ==> n > 0)
  {
    if |items| > ITEMS_PER_CMD then ITEMS_PER_CMD else |items|
  }

  /** The commands for the items of one object. */
  function Chunks(name: string, key: string, items: seq<seq<string>>): seq<Command> {
    if items == [] then []
    else [[name, key] + Flatten(items[..Take(items)])] + Chunks(name, key, items[Take(items)..])
  }

  predicate Wide(items: seq<seq<string>>, width: nat) {
    forall i :: 0 <= i < |items| ==> |items[i]| == width
  }

  lemma {:induction false} FlattenLength(items: seq<seq<string>>, width: nat)
    requires Wide(items, width)
    ensures |Flatten(items)| == |items| * width
  {
    if items != [] {
      FlattenLength(items[1..], width);
      assert |items| * width == width + (|items| - 1) * width;
    }
  }

  lemma {:induction false} FlattenAppend(a: seq<seq<string>>, b: seq<seq<string>>)
    ensures Flatten(a + b) == Flatten(a) + Flatten(b)
  {
    if a == [] {
      assert a + b == b;
    } else {
      assert (a + b)[1..] == a[1..] + b;
      FlattenAppend(a[1..], b);
    }
  }

  lemma FlattenLast(items: seq<seq<string>>, lo: nat, i: nat)
    requires lo <= i < |items|
    ensures Flatten(items[lo..i + 1]) == Flatten(items[lo..i]) + items[i]
  {
    assert items[lo..i + 1] == items[lo..i] + [items[i]];
    FlattenAppend(items[lo..i], [items[i]]);
    assert Flatten([items[i]]) == items[i] + Flatten([]);
  }

  /** What of each command: between one and sixty-four items, and its argument count is their number. */
  lemma {:induction false} ChunksBounded(name: string, key: string, items: seq<seq<string>>, width: nat, i: nat)
    requires Wide(items, width) && i < |Chunks(name, key, items)|
    ensures var c := Chunks(name, key, items)[i];
            exists n :: 1 <= n <= ITEMS_PER_CMD && |c| == 2 + n * width && c[0] == name && c[1] == key
  {
    var n := Take(items);
    FlattenLength(items[..n], width);
    if i > 0 {
      ChunksBounded(name, key, items[n..], width, i - 1);
    }
  }

  function Args(cmds: seq<Command>): seq<string> {
    if cmds == [] then [] else (if |cmds[0]| >= 2 then cmds[0][2..] else []) + Args(cmds[1..])
  }

  /** Nothing is lost or reordered: the arguments concatenate to the items. */
  lemma {:induction false} ChunksComplete(name: string, key: string, items: seq<seq<string>>)
    ensures Args(Chunks(name, key, items)) == Flatten(items)
  {
    if items != [] {
      var n := Take(items);
      ChunksComplete(name, key, items[n..]);
      FlattenAppend(items[..n], items[n..]);
      assert items[..n] + items[n..] == items;
      var c := [name, key] + Flatten(items[..n]);
      assert c[2..] == Flatten(items[..n]);
      assert Chunks(name, key, items)[1..] == Chunks(name, key, items[n..]);
    }
  }

  /** A full chunk more. */
  lemma {:induction false} ChunksGrow(name: string, key: string, items: seq<seq<string>>, lo: nat, hi: nat)
    requires lo <= hi <= |items| && lo % ITEMS_PER_CMD == 0 && 0 < hi - lo <= ITEMS_PER_CMD
    ensures Chunks(name, key, items[..hi])
         == Chunks(name, key, items[..lo]) + [[name, key] + Flatten(items[lo..hi])]
    decreases lo
  {
    hide Flatten;
    var n := ITEMS_PER_CMD;
    if lo == 0 {
      assert items[..hi][..hi] == items[lo..hi] && items[..hi][hi..] == [];
    } else {
      ChunksGrow(name, key, items[n..], lo - n, hi - n);
      GrowSlices(items, lo, hi);
      ChunksFirst(name, key, items[..hi]);
      ChunksFirst(name, key, items[..lo]);
    }
  }

  lemma ChunksFirst(name: string, key: string, items: seq<seq<string>>)
    requires |items| >= ITEMS_PER_CMD
    ensures Chunks(name, key, items)
         == [[name, key] + Flatten(items[..ITEMS_PER_CMD])] + Chunks(name, key, items[ITEMS_PER_CMD..])
  {
    hide Flatten;
  }

  lemma GrowSlices(items: seq<seq<string>>, lo: nat, hi: nat)
    requires ITEMS_PER_CMD <= lo <= hi <= |items|
    ensures var n := ITEMS_PER_CMD;
            && items[n..][..hi - n] == items[..hi][n..] && items[n..][..lo - n] == items[..lo][n..]
            && items[n..][lo - n..hi - n] == items[lo..hi] && items[..hi][..n] == items[..lo][..n]
  {
  }

  /** A command of argc arguments of which only some are printed so far. */
  function Begun(name: string, key: string, argc: nat, args: seq<string>): string {
    Header('*', argc) + Bulk(name) + Bulk(key) + Bulks(args)
  }

  lemma BegunWhole(name: string, key: string, args: seq<string>)
    ensures Begun(name, key, 2 + |args|, args) == Encode([name, key] + args)
  {
    hide Bulk, Header;
    var c := [name, key] + args;
    assert c[1..] == [key] + args && c[1..][1..] == args;
    assert Bulks(c) == Bulk(name) + (Bulk(key) + Bulks(args));
  }

  method PrintAll(dst: string, args: seq<string>) returns (out: string)
    ensures out == dst + Bulks(args)
  {
    out := dst;
    for j := 0 to |args|
      invariant out == dst + Bulks(args[..j])
    {
      BulksLast(args, j);
      out := out + Bulk(args[j]);
    }
    assert args[..|args|] == args;
  }

  /** What is printed after i items when the current command began at item lo. */
  function SoFar(dst: string, name: string, key: string, items: seq<seq<string>>, width: nat, lo: nat, i: nat): string
    requires lo <= i <= |items|
  {
    dst + EncodeAll(Chunks(name, key, items[..lo])) +
    if lo == i then "" else Begun(name, key, 2 + Take(items[lo..]) * width, Flatten(items[lo..i]))
  }

  lemma BeginChunk(dst: string, name: string, key: string, items: seq<seq<string>>, width: nat, i: nat)
    requires i < |items|
    ensures SoFar(dst, name, key, items, width, i, i + 1) ==
              SoFar(dst, name, key, items, width, i, i)
              + Header('*', 2 + Take(items[i..]) * width) + Bulk(name) + Bulk(key) + Bulks(items[i])
  {
    hide EncodeAll, Chunks, Flatten, Bulks, Bulk, Header, Take;
    FlattenLast(items, i, i);
    FlattenNothing();
    assert items[i..i] == [];
    assert Flatten(items[i..i + 1]) == items[i];
  }

  lemma FlattenNothing()
    ensures Flatten([]) == []
  {
  }

  lemma ExtendChunk(dst: string, name: string, key: string, items: seq<seq<string>>, width: nat, lo: nat, i: nat)
    requires lo < i < |items|
    ensures SoFar(dst, name, key, items, width, lo, i + 1) == SoFar(dst, name, key, items, width, lo, i) + Bulks(items[i])
  {
    hide EncodeAll, Chunks, Flatten, Bulks, Bulk, Header, Take;
    FlattenLast(items, lo, i);
    BulksAppend(Flatten(items[lo..i]), items[i]);
  }

  lemma EndChunk(dst: string, name: string, key: string, items: seq<seq<string>>, width: nat, lo: nat, hi: nat)
    requires Wide(items, width) && lo < hi <= |items| && lo % ITEMS_PER_CMD == 0 && hi - lo == Take(items[lo..])
    ensures SoFar(dst, name, key, items, width, lo, hi) == SoFar(dst, name, key, items, width, hi, hi)
  {
    hide EncodeAll, Chunks, Flatten, Bulks, Bulk, Header, Begun, Encode;
    FlattenLength(items[lo..hi], width);
    BegunWhole(name, key, Flatten(items[lo..hi]));
    ChunksGrow(name, key, items, lo, hi);
    var c := [name, key] + Flatten(items[lo..hi]);
    EncodeAllAppend(Chunks(name, key, items[..lo]), [c]);
    SingleEncode(c);
  }

  lemma SingleEncode(c: Command)
    ensures EncodeAll([c]) == Encode(c)
  {
    hide Encode;
    assert EncodeAll([c]) == Encode(c) + EncodeAll([]);
  }

  /**
   * rewriteListObject and its siblings: the header is printed before the items it announces.
   * Items are the elements of a list or set, or the pairs of a sorted set or hash.
   */
  method RewriteItems(dst: string, name: string, key: string, items: seq<seq<string>>, width: nat) returns (out: string)
    requires Wide(items, width)
    ensures out == dst + EncodeAll(Chunks(name, key, items))
  {
    hide SoFar, EncodeAll, Chunks, Header, Bulk, Bulks, Wide;
    var count, left := 0, |items|;
    out := dst;
    NothingPrinted(dst, name, key, items, width);
    ghost var q := 0;
    for i := 0 to |items|
      invariant 0 <= count < ITEMS_PER_CMD && left == |items| - i && i == ITEMS_PER_CMD * q + count
      invariant out == SoFar(dst, name, key, items, width, i - count, i)
    {
      out := PrintItem(dst, out, name, key, items, width, count, left, i - count, i);
      count, left := count + 1, left - 1;
      if count == ITEMS_PER_CMD {
        EndChunk(dst, name, key, items, width, ITEMS_PER_CMD * q, i + 1);
        count, q := 0, q + 1;
      }
    }
    if count > 0 {
      EndChunk(dst, name, key, items, width, ITEMS_PER_CMD * q, |items|);
    }
    AllPrinted(dst, name, key, items, width);
  }

  /** One turn of the loop: a new header if it is due, then the item. */
  method PrintItem(ghost dst: string, text: string, name: string, key: string, items: seq<seq<string>>, width: nat,
                   count: nat, left: nat, ghost lo: nat, i: nat) returns (out: string)
    requires i < |items| && left == |items| - i && lo == i - count
    requires text == SoFar(dst, name, key, items, width, lo, i)
    ensures out == SoFar(dst, name, key, items, width, lo, i + 1)
  {
    hide SoFar, Header, Bulk, Bulks;
    out := text;
    if count == 0 {
      var cmdItems := if left > ITEMS_PER_CMD then ITEMS_PER_CMD else left;
      out := out + Header('*', 2 + cmdItems * width);
      out := out + Bulk(name);
      out := out + Bulk(key);
      BeginChunk(dst, name, key, items, width, i);
    } else {
      ExtendChunk(dst, name, key, items, width, lo, i);
    }
    out := PrintAll(out, items[i]);
  }

  lemma NothingPrinted(dst: string, name: string, key: string, items: seq<seq<string>>, width: nat)
    ensures SoFar(dst, name, key, items, width, 0, 0) == dst
  {
    assert items[..0] == [];
  }

  lemma AllPrinted(dst: string, name: string, key: string, items: seq<seq<string>>, width: nat)
    ensures SoFar(dst, name, key, items, width, |items|, |items|) == dst + EncodeAll(Chunks(name, key, items))
  {
    hide EncodeAll, Chunks;
    assert items[..|items|] == items;
  }
}
