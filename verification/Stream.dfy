/** The size-limited reader of office saving, and the sniffed and re-assembled upload stream. */
module Stream {
  import opened Common

  const MAX_INT64: int := 0x7fff_ffff_ffff_ffff
  const SNIFF_BYTES: nat := 512

  /** 64-bit addition wraps around. */
  function Add64(a: int, b: int): int {
    (a + b + MAX_INT64 + 1) % (2 * (MAX_INT64 + 1)) - (MAX_INT64 + 1)
  }

  datatype Move = Take(n: nat, withEof: bool) | Break(n: nat)
  datatype Signal = More | Eof | Failed

  function Least(a: nat, b: nat): nat { if a <= b then a else b }

  /**
    A reader over `rest` that answers as `script` says: any number of bytes up to the room given,
    none included, with or without the end signal on the last ones, or with an error. With the
    script used up it delivers as much as fits.
   */
  class Source {
    var rest: Bytes
    var script: seq<Move>

    constructor (body: Bytes, script: seq<Move>)
      ensures rest == body && this.script == script
    {
      this.rest := body;
      this.script := script;
    }

    method Read(room: nat) returns (chunk: Bytes, signal: Signal)
      requires room >= 1
      modifies this
      ensures old(rest) == chunk + rest && |chunk| <= room
      ensures script == old(script) || (old(script) != [] && script == old(script)[1..])
      ensures signal.Failed? ==> old(script) != [] && old(script)[0].Break?
      ensures signal.Eof? ==> rest == []
      ensures signal.More? ==> |script| + |rest| < |old(script)| + |old(rest)|
    {
      var move := Take(room, false);
      if script != [] {
        move, script := script[0], script[1..];
      } else if rest == [] {
        return [], Eof;
      }
      var n := Least(Least(move.n, room), |rest|);
      chunk, rest := rest[..n], rest[n..];
      signal := if move.Break? then Failed else if move.withEof && rest == [] then Eof else More;
    }
  }

  predicate Breaks(script: seq<Move>) {
    exists m :: m in script && m.Break?
  }

  class LimitedReader {
    const reader: Source
    var remaining: int

    constructor (reader: Source, limit: int)
      ensures this.reader == reader && remaining == limit
    {
      this.reader := reader;
      this.remaining := limit;
    }

    method Read(room: nat) returns (chunk: Bytes, signal: Signal)
      requires room >= 1
      modifies this, reader
      ensures old(reader.rest) == chunk + reader.rest && |chunk| <= room
      ensures old(remaining) <= 0 ==> chunk == [] && signal == Eof && remaining == old(remaining)
      ensures old(remaining) > 0 ==> remaining == old(remaining) - |chunk| && remaining >= 0
      ensures signal.Failed? ==> Breaks(old(reader.script))
      ensures signal.Eof? ==> reader.rest == [] || remaining <= 0
      ensures forall m :: m in reader.script ==> m in old(reader.script)
      ensures signal.More? ==> |reader.script| + |reader.rest| < |old(reader.script)| + |old(reader.rest)|
    {
      if remaining <= 0 { return [], Eof; }
      var space := room;
      if space > remaining { space := remaining; }
      chunk, signal := reader.Read(space);
      remaining := remaining - |chunk|;
    }
  }

  /** io.ReadAll: the room offered to each Read is whatever the growing buffer has free. */
  method ReadAllLimited(r: LimitedReader) returns (data: Bytes, ok: bool)
    modifies r, r.reader
    ensures !Breaks(old(r.reader.script)) ==> ok
    ensures ok ==> data == old(r.reader.rest)[..Least(|old(r.reader.rest)|, Positive(old(r.remaining)))]
  {
    data := [];
    ok := true;
    ghost var body, limit := r.reader.rest, r.remaining;
    var signal := More;
    while signal == More
      invariant body == data + r.reader.rest
      invariant limit <= 0 ==> data == [] && r.remaining == limit
      invariant limit > 0 ==> r.remaining == limit - |data| && r.remaining >= 0
      invariant signal == Failed ==> Breaks(old(r.reader.script))
      invariant signal == Eof ==> r.reader.rest == [] || r.remaining <= 0
      invariant forall m :: m in r.reader.script ==> m in old(r.reader.script)
      decreases if signal == More then |r.reader.script| + |r.reader.rest| + 1 else 0
    {
      var room: nat :| room >= 1;
      var chunk;
      chunk, signal := r.Read(room);
      data := data + chunk;
    }
    ok := signal == Eof;
    assert body[..|data|] == data;
  }

  function Positive(n: int): nat { if n <= 0 then 0 else n }

  datatype SaveOutcome = TooLarge | ReadError | Put(bytes: Bytes)

  /** The effective limit: a configured value of zero or less means 50 MiB. */
  function MaxUpload(configured: int): int {
    if configured <= 0 then 50 * 1024 * 1024 else configured
  }

  /**
    Office Save once the access checks have passed. Reading through the limit of one byte more
    than allowed tells a body that is too large from one that just fits; only a limit of the
    largest 64-bit number wraps around and stores nothing.
   */
  method ReadForSave(body: Source, configured: int) returns (outcome: SaveOutcome)
    requires configured <= MAX_INT64
    modifies body
    ensures outcome.ReadError? ==> Breaks(old(body.script))
    ensures !Breaks(old(body.script)) && configured <= 0 ==>
      outcome == if |old(body.rest)| > 52_428_800 then TooLarge else Put(old(body.rest))
    ensures !Breaks(old(body.script)) && 0 < configured < MAX_INT64 ==>
      outcome == if |old(body.rest)| > configured then TooLarge else Put(old(body.rest))
    ensures !Breaks(old(body.script)) && configured == MAX_INT64 ==> outcome == Put([])
    ensures !Breaks(old(body.script)) ==>
      ((outcome == if |old(body.rest)| > MaxUpload(configured) then TooLarge else Put(old(body.rest))) <==>
       MaxUpload(configured) < MAX_INT64 || old(body.rest) == [])
  {
    var max := MaxUpload(configured);
    var limited := new LimitedReader(body, Add64(max, 1));
    var data, ok := ReadAllLimited(limited);
    if !ok { return ReadError; }
    if |data| > max { return TooLarge; }
    return Put(data);
  }

  // ---- Sniffing an upload.

  /** io.ReadFull into a buffer of `want` bytes. */
  method ReadFull(reader: Source, want: nat) returns (sniff: Bytes, ok: bool)
    modifies reader
    ensures old(reader.rest) == sniff + reader.rest
    ensures ok ==> |sniff| == Least(want, |old(reader.rest)|)
    ensures !Breaks(old(reader.script)) ==> ok
    ensures forall m :: m in reader.script ==> m in old(reader.script)
  {
    sniff := [];
    var signal := More;
    while |sniff| < want && signal == More
      invariant old(reader.rest) == sniff + reader.rest && |sniff| <= want
      invariant signal == Failed ==> Breaks(old(reader.script))
      invariant signal == Eof ==> reader.rest == []
      invariant forall m :: m in reader.script ==> m in old(reader.script)
      decreases if signal == More then |reader.script| + |reader.rest| + 1 else 0
    {
      var chunk;
      chunk, signal := reader.Read(want - |sniff|);
      sniff := sniff + chunk;
    }
    ok := |sniff| == want || signal == Eof;
  }

  method ReadAll(reader: Source) returns (data: Bytes, ok: bool)
    modifies reader
    ensures ok ==> data == old(reader.rest)
    ensures !Breaks(old(reader.script)) ==> ok
  {
    data := [];
    var signal := More;
    while signal == More
      invariant old(reader.rest) == data + reader.rest
      invariant signal == Failed ==> Breaks(old(reader.script))
      invariant signal == Eof ==> reader.rest == []
      invariant forall m :: m in reader.script ==> m in old(reader.script)
      decreases if signal == More then |reader.script| + |reader.rest| + 1 else 0
    {
      var room: nat :| room >= 1;
      var chunk;
      chunk, signal := reader.Read(room);
      data := data + chunk;
    }
    ok := signal == Eof;
  }

  /** What the store receives of an upload: the sniffed bytes, then the rest of the same reader. */
  method SniffThenStore(reader: Source) returns (sniff: Bytes, stored: Bytes, ok: bool)
    modifies reader
    ensures ok ==> stored == old(reader.rest) && sniff == old(reader.rest)[..Least(SNIFF_BYTES, |old(reader.rest)|)]
    ensures !Breaks(old(reader.script)) ==> ok
  {
    ghost var body := reader.rest;
    stored := [];
    sniff, ok := ReadFull(reader, SNIFF_BYTES);
    if ok {
      assert body[..|sniff|] == sniff;
      var tail;
      tail, ok := ReadAll(reader);
      stored := sniff + tail;
    }
  }
}
