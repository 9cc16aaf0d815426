/**
  Tile validation and whole access units of src/vaapi_advc/advc_vaapi_decode_av1.c:457-623.
 */
module Av1Unit {
  import opened Bits
  import opened SyntaxElements
  import opened Av1Obu
  import opened Av1Parse
  import Av1Wire

  datatype Tile = Tile(offset: nat, size: nat, whole: bool, row: nat, column: nat) {
    function End(): nat { offset + size }
    function Index(cols: nat): nat { row * cols + column }
  }

  predicate PictureOk(p: Picture) {
    p.profile == 0 && p.tileCols > 0 && p.tileRows > 0 && p.tileCols * p.tileRows <= MAX_TILES
  }

  predicate Inside(t: Tile, s: Span) {
    s.begin <= t.offset && t.End() <= s.end
  }

  predicate TileOk(t: Tile, dataSize: nat, p: Picture, spans: seq<Span>) {
    && t.whole && t.size != 0 && t.row < p.tileRows && t.column < p.tileCols
    && t.End() <= dataSize
    && exists k :: 0 <= k < |spans| && Inside(t, spans[k])
  }

  predicate Apart(t: Tile, u: Tile, cols: nat) {
    t.Index(cols) != u.Index(cols) && (t.End() <= u.offset || u.End() <= t.offset)
  }

  predicate TilesOk(tiles: seq<Tile>, dataSize: nat, p: Picture, spans: seq<Span>) {
    && (forall i :: 0 <= i < |tiles| ==> TileOk(tiles[i], dataSize, p, spans))
    && (forall i, j :: 0 <= i < j < |tiles| ==> Apart(tiles[j], tiles[i], p.tileCols))
  }

  predicate TilesValid(tiles: seq<Tile>, dataSize: nat, p: Picture, spans: seq<Span>) {
    |tiles| == p.tileCols * p.tileRows && TilesOk(tiles, dataSize, p, spans)
  }

  lemma IndexBound(t: Tile, p: Picture)
    requires t.row < p.tileRows && t.column < p.tileCols
    ensures t.Index(p.tileCols) < p.tileCols * p.tileRows
  {
    RowsFit(t.row + 1, p.tileRows, p.tileCols);
    assert (t.row + 1) * p.tileCols == t.row * p.tileCols + p.tileCols;
  }

  lemma RowsFit(a: nat, b: nat, cols: nat)
    requires a <= b
    ensures a * cols <= b * cols
  {
  }

  method ValidateTiles(tiles: seq<Tile>, dataSize: nat, p: Picture, spans: seq<Span>) returns (ok: bool)
    requires PictureOk(p)
    ensures ok <==> TilesValid(tiles, dataSize, p, spans)
  {
    hide TileOk, Apart, Tile.Index;
    var expected := p.tileCols * p.tileRows;
    if |tiles| != expected {
      return false;
    }
    var seen := new bool[MAX_TILES](_ => false);
    var i := 0;
    while i < |tiles|
      invariant i <= |tiles|
      invariant TilesOk(tiles[..i], dataSize, p, spans)
      invariant forall k :: 0 <= k < MAX_TILES ==> (seen[k] <==> exists j :: 0 <= j < i && tiles[j].Index(p.tileCols) == k)
    {
      var t := tiles[i];
      var fits := CheckTile(t, dataSize, p, spans);
      if !fits {
        return false;
      }
      TileIndex(t, dataSize, p, spans);
      var index := t.Index(p.tileCols);
      var repeated := seen[index];
      seen[index] := true;
      var apart := CheckApart(tiles, i, p.tileCols, repeated);
      if !apart {
        return false;
      }
      assert tiles[..i + 1] == tiles[..i] + [t];
      i := i + 1;
    }
    assert tiles[..i] == tiles;
    return true;
  }

  lemma TileIndex(t: Tile, dataSize: nat, p: Picture, spans: seq<Span>)
    requires PictureOk(p) && TileOk(t, dataSize, p, spans)
    ensures t.Index(p.tileCols) < MAX_TILES
  {
    IndexBound(t, p);
  }

  /** Field and containment checks of one tile. */
  method CheckTile(t: Tile, dataSize: nat, p: Picture, spans: seq<Span>) returns (ok: bool)
    ensures ok <==> TileOk(t, dataSize, p, spans)
  {
    if !t.whole || t.size == 0 || t.row >= p.tileRows || t.column >= p.tileCols ||
       t.offset > dataSize || t.size > dataSize - t.offset {
      return false;
    }
    var j := 0;
    while j < |spans|
      invariant j <= |spans|
      invariant forall k :: 0 <= k < j ==> !Inside(t, spans[k])
    {
      if t.offset >= spans[j].begin && t.End() <= spans[j].end {
        return true;
      }
      j := j + 1;
    }
    return false;
  }

  /** The seen table's answer and the overlap scan against every earlier tile. */
  method CheckApart(tiles: seq<Tile>, i: nat, cols: nat, repeated: bool) returns (ok: bool)
    requires i < |tiles|
    requires repeated <==> exists j :: 0 <= j < i && tiles[j].Index(cols) == tiles[i].Index(cols)
    ensures ok <==> forall j :: 0 <= j < i ==> Apart(tiles[i], tiles[j], cols)
  {
    hide Tile.Index;
    if repeated {
      var j :| 0 <= j < i && tiles[j].Index(cols) == tiles[i].Index(cols);
      assert !Apart(tiles[i], tiles[j], cols);
      return false;
    }
    var j := 0;
    while j < i
      invariant j <= i
      invariant forall k :: 0 <= k < j ==> Apart(tiles[i], tiles[k], cols)
    {
      if tiles[i].offset < tiles[j].End() && tiles[j].offset < tiles[i].End() {
        assert !Apart(tiles[i], tiles[j], cols);
        return false;
      }
      j := j + 1;
    }
    return true;
  }

  // ---------- exact cover ----------

  function Indices(tiles: seq<Tile>, cols: nat): (s: seq<nat>)
    ensures |s| == |tiles| && forall k :: 0 <= k < |s| ==> s[k] == tiles[k].Index(cols)
  {
    seq(|tiles|, k requires 0 <= k < |tiles| => tiles[k].Index(cols))
  }

  function Below(n: nat): (s: set<nat>)
    ensures |s| == n && forall v :: v in s <==> 0 <= v < n
  {
    if n == 0 then {} else Below(n - 1) + {n - 1}
  }

  function Elements(s: seq<nat>): (r: set<nat>)
    ensures forall v :: v in r <==> v in s
  {
    set x | x in s
  }

  /** `n` distinct numbers below `n` are all the numbers below `n`. */
  lemma {:induction false} Pigeonhole(s: seq<nat>, n: nat)
    requires |s| == n
    requires forall k :: 0 <= k < n ==> s[k] < n
    requires forall i, j :: 0 <= i < j < n ==> s[i] != s[j]
    ensures forall v: nat :: v < n ==> v in s
  {
    DistinctCount(s);
    assert Elements(s) <= Below(n);
    SubsetOfSameSize(Elements(s), Below(n));
  }

  lemma {:induction false} DistinctCount(s: seq<nat>)
    requires forall i, j :: 0 <= i < j < |s| ==> s[i] != s[j]
    ensures |Elements(s)| == |s|
  {
    if s != [] {
      var init := s[..|s| - 1];
      DistinctCount(init);
      assert s == init + [s[|s| - 1]];
      assert Elements(s) == Elements(init) + {s[|s| - 1]};
    }
  }

  lemma {:induction false} SubsetOfSameSize<T>(a: set<T>, b: set<T>)
    requires a <= b && |a| == |b|
    ensures a == b
  {
    if a != {} {
      var x :| x in a;
      SubsetOfSameSize(a - {x}, b - {x});
    }
  }

  lemma LaterRow(r: nat, c: nat, r': nat, c': nat, cols: nat)
    requires c < cols && r < r'
    ensures r * cols + c < r' * cols + c'
  {
    assert (r + 1) * cols <= r' * cols;
  }

  /** Equal indices mean the same row and column. */
  lemma IndexInjective(r: nat, c: nat, r': nat, c': nat, cols: nat)
    requires c < cols && c' < cols && r * cols + c == r' * cols + c'
    ensures r == r' && c == c'
  {
    if r < r' {
      LaterRow(r, c, r', c', cols);
    } else if r' < r {
      LaterRow(r', c', r, c, cols);
    }
  }

  predicate At(t: Tile, r: nat, c: nat) {
    t.row == r && t.column == c
  }

  /** Accepted tiles cover every row and column exactly once. */
  lemma ExactCover(tiles: seq<Tile>, dataSize: nat, p: Picture, spans: seq<Span>, r: nat, c: nat)
    requires TilesValid(tiles, dataSize, p, spans) && r < p.tileRows && c < p.tileCols
    ensures exists i :: 0 <= i < |tiles| && At(tiles[i], r, c)
    ensures forall i, j :: 0 <= i < |tiles| && 0 <= j < |tiles| && At(tiles[i], r, c) && At(tiles[j], r, c) ==> i == j
  {
    var cols := p.tileCols;
    var s := Indices(tiles, cols);
    forall k | 0 <= k < |s| ensures s[k] < |s| {
      assert TileOk(tiles[k], dataSize, p, spans);
      IndexBound(tiles[k], p);
    }
    forall i, j | 0 <= i < j < |s| ensures s[i] != s[j] {
      assert Apart(tiles[j], tiles[i], cols);
    }
    Pigeonhole(s, |s|);
    IndexBound(Tile(0, 1, true, r, c), p);
    assert r * cols + c in s;
    var i :| 0 <= i < |s| && s[i] == r * cols + c;
    assert TileOk(tiles[i], dataSize, p, spans);
    IndexInjective(tiles[i].row, tiles[i].column, r, c, cols);
    forall i, j | 0 <= i < |tiles| && 0 <= j < |tiles| && At(tiles[i], r, c) && At(tiles[j], r, c) ensures i == j {
      assert s[i] == s[j];
    }
  }

  predicate Covers(t: Tile, x: nat) {
    t.offset <= x < t.offset + t.size
  }

  /** No two tiles have a place in the picture or a byte of the data in common. */
  ghost predicate Disjoint(t: Tile, u: Tile) {
    !(t.row == u.row && t.column == u.column) && forall x :: !(Covers(t, x) && Covers(u, x))
  }

  lemma ApartIsDisjoint(t: Tile, u: Tile, cols: nat)
    requires t.column < cols && u.column < cols && t.size > 0 && u.size > 0
    ensures Apart(t, u, cols) <==> Disjoint(t, u)
  {
    if t.Index(cols) == u.Index(cols) {
      IndexInjective(t.row, t.column, u.row, u.column, cols);
    }
    if !(t.End() <= u.offset || u.End() <= t.offset) {
      var x := if t.offset < u.offset then u.offset else t.offset;
      assert Covers(t, x) && Covers(u, x);
    }
  }

  /** A whole tile of some size, at a place in the picture, within the data and within one payload. */
  ghost predicate Placeable(t: Tile, dataSize: nat, p: Picture, spans: seq<Span>) {
    && t.whole && t.size > 0 && t.row < p.tileRows && t.column < p.tileCols && t.offset + t.size <= dataSize
    && exists k :: 0 <= k < |spans| && spans[k].begin <= t.offset && t.offset + t.size <= spans[k].end
  }

  lemma PlaceableIsOk(t: Tile, dataSize: nat, p: Picture, spans: seq<Span>)
    ensures TileOk(t, dataSize, p, spans) <==> Placeable(t, dataSize, p, spans)
  {
    if TileOk(t, dataSize, p, spans) {
      var k :| 0 <= k < |spans| && Inside(t, spans[k]);
    }
    if Placeable(t, dataSize, p, spans) {
      var k :| 0 <= k < |spans| && spans[k].begin <= t.offset && t.offset + t.size <= spans[k].end;
      assert Inside(t, spans[k]);
    }
  }

  lemma PairIsApart(t: Tile, u: Tile, dataSize: nat, p: Picture, spans: seq<Span>)
    requires Placeable(t, dataSize, p, spans) && Placeable(u, dataSize, p, spans)
    ensures Apart(t, u, p.tileCols) <==> Disjoint(t, u)
  {
    hide Apart, Disjoint;
    ApartIsDisjoint(t, u, p.tileCols);
  }

  /** What the tile checks accept, in terms of rows, columns and bytes. */
  lemma TilesExactly(tiles: seq<Tile>, dataSize: nat, p: Picture, spans: seq<Span>)
    ensures TilesValid(tiles, dataSize, p, spans) <==>
            && |tiles| == p.tileCols * p.tileRows
            && (forall i :: 0 <= i < |tiles| ==> Placeable(tiles[i], dataSize, p, spans))
            && (forall i, j :: 0 <= i < j < |tiles| ==> Disjoint(tiles[j], tiles[i]))
  {
    hide TileOk, Apart, Disjoint, Placeable;
    forall i | 0 <= i < |tiles| ensures TileOk(tiles[i], dataSize, p, spans) <==> Placeable(tiles[i], dataSize, p, spans) {
      PlaceableIsOk(tiles[i], dataSize, p, spans);
    }
    forall i, j | 0 <= i < j < |tiles| && Placeable(tiles[i], dataSize, p, spans) && Placeable(tiles[j], dataSize, p, spans)
      ensures Apart(tiles[j], tiles[i], p.tileCols) <==> Disjoint(tiles[j], tiles[i])
    {
      PairIsApart(tiles[j], tiles[i], dataSize, p, spans);
    }
  }

  // ---------- where the tile payloads lie ----------

  predicate CarriesTiles(o: Obu) {
    o.kind == TILE_GROUP || o.kind == FRAME
  }

  /** The spans are in order below `limit`, and each is the payload of one of the tile-carrying OBUs. */
  ghost predicate Placed(spans: seq<Span>, full: seq<Byte>, limit: nat, obus: seq<Obu>) {
    && limit <= |full|
    && (forall k :: 0 <= k < |spans| ==> spans[k].begin <= spans[k].end <= limit)
    && (forall i, j :: 0 <= i < j < |spans| ==> spans[i].end <= spans[j].begin)
    && (forall k :: 0 <= k < |spans| ==>
          exists o :: o in obus && CarriesTiles(o) && full[spans[k].begin..spans[k].end] == o.payload)
  }

  lemma ObservePlaces(v: Progress, o: Obu, at: nat, p: Picture, full: seq<Byte>, limit: nat, limit': nat, done: seq<Obu>)
    requires Observe(v, o, at, p).Some?
    requires limit <= at && at + |o.payload| <= limit' <= |full|
    requires full[at..at + |o.payload|] == o.payload
    requires Placed(v.spans, full, limit, done)
    ensures Placed(Observe(v, o, at, p).value.spans, full, limit', done + [o])
  {
    hide TakeU, Unpack;
    var w := Observe(v, o, at, p).value;
    var span := Span(at, at + |o.payload|);
    assert w.spans == v.spans || (CarriesTiles(o) && (w.spans == v.spans + [span] || w.spans == [span]));
    hide Observe;
    assert o in done + [o];
    forall k | 0 <= k < |w.spans|
      ensures exists q :: q in done + [o] && CarriesTiles(q) && full[w.spans[k].begin..w.spans[k].end] == q.payload
    {
      if w.spans[k] != span || !CarriesTiles(o) {
        assert w.spans[k] == v.spans[k];
        var q :| q in done && CarriesTiles(q) && full[v.spans[k].begin..v.spans[k].end] == q.payload;
        assert q in done + [o];
      }
    }
  }

  lemma {:induction false} RawPlaces(full: seq<Byte>, at: nat, v: Progress, p: Picture, done: seq<Obu>)
    requires at <= |full| && Placed(v.spans, full, at, done)
    requires RunRaw(full[at..], at, v, p).Some?
    ensures var r := RunRaw(full[at..], at, v, p).value; Placed(r.progress.spans, full, |full|, done + r.obus)
    decreases |full| - at
  {
    hide NextRaw, Observe, Placed;
    var data := full[at..];
    if data == [] {
      assert done + [] == done;
    } else {
      var (located, total) := NextRaw(data).value;
      var o := located.obu;
      var w := Observe(v, o, at + located.offset, p).value;
      assert full[at + located.offset..at + total] == data[located.offset..total];
      ObservePlaces(v, o, at + located.offset, p, full, at, at + total, done);
      assert full[at + total..] == data[total..];
      RawPlaces(full, at + total, w, p, done + [o]);
      var rest := RunRaw(data[total..], at + total, w, p).value.obus;
      assert done + [o] + rest == done + ([o] + rest);
    }
  }

  lemma {:induction false} AnnexBPlaces(full: seq<Byte>, at: nat, v: Progress, p: Picture, done: seq<Obu>)
    requires at <= |full| && Placed(v.spans, full, at, done)
    requires RunAnnexB(full[at..], at, v, p).Some?
    ensures var r := RunAnnexB(full[at..], at, v, p).value; Placed(r.progress.spans, full, |full|, done + r.obus)
    decreases |full| - at
  {
    hide NextAnnexB, Observe, Placed;
    var data := full[at..];
    if data == [] {
      assert done + [] == done;
    } else {
      var (located, field, size) := NextAnnexB(data).value;
      var o := located.obu;
      var next := at + field + size;
      var w := Observe(v, o, at + field + located.offset, p).value;
      assert full[at + field + located.offset..next] == data[field + located.offset..field + size];
      ObservePlaces(v, o, at + field + located.offset, p, full, at, next, done);
      assert full[next..] == data[field + size..];
      AnnexBPlaces(full, next, w, p, done + [o]);
      var rest := RunAnnexB(data[field + size..], next, w, p).value.obus;
      assert done + [o] + rest == done + ([o] + rest);
    }
  }

  /** In either framing, every accepted tile lies inside exactly one tile-carrying payload. */
  lemma TilesLieInPayloads(data: seq<Byte>, p: Picture, annexB: bool, tiles: seq<Tile>, i: nat)
    requires var parsed := if annexB then ParseAnnexB(data, p) else ParseRaw(data, p);
             parsed.Some? && TilesValid(tiles, |data|, p, parsed.value.progress.spans)
    requires i < |tiles|
    ensures var parsed := (if annexB then ParseAnnexB(data, p) else ParseRaw(data, p)).value;
            var spans := parsed.progress.spans;
            exists k :: 0 <= k < |spans| && Inside(tiles[i], spans[k]) && spans[k].end <= |data| &&
              (exists o :: o in parsed.obus && CarriesTiles(o) && data[spans[k].begin..spans[k].end] == o.payload) &&
              (forall m :: 0 <= m < |spans| && Inside(tiles[i], spans[m]) ==> m == k)
  {
    hide ParseAnnexB, ParseRaw, Placed, TilesOk;
    var parsed := (if annexB then ParseAnnexB(data, p) else ParseRaw(data, p)).value;
    var spans := parsed.progress.spans;
    if annexB { UnitPlaces(data, p); } else { StreamPlaces(data, p); }
    TileInside(tiles, i, |data|, p, spans);
    var k :| 0 <= k < |spans| && Inside(tiles[i], spans[k]);
    InOneSpan(spans, data, parsed.obus, tiles[i], k);
  }

  lemma UnitPlaces(data: seq<Byte>, p: Picture)
    requires ParseAnnexB(data, p).Some?
    ensures var r := ParseAnnexB(data, p).value; Placed(r.progress.spans, data, |data|, r.obus)
  {
    hide RunAnnexB, UnitFields;
    var (tu, fu) := UnitFields(data).value;
    AnnexBPlaces(data, tu + fu, FRESH, p, []);
    var r := ParseAnnexB(data, p).value;
    assert [] + r.obus == r.obus;
  }

  lemma StreamPlaces(data: seq<Byte>, p: Picture)
    requires ParseRaw(data, p).Some?
    ensures var r := ParseRaw(data, p).value; Placed(r.progress.spans, data, |data|, r.obus)
  {
    hide RunRaw;
    assert data[0..] == data;
    RawPlaces(data, 0, FRESH, p, []);
    var r := ParseRaw(data, p).value;
    assert [] + r.obus == r.obus;
  }

  lemma TileInside(tiles: seq<Tile>, i: nat, dataSize: nat, p: Picture, spans: seq<Span>)
    requires TilesValid(tiles, dataSize, p, spans) && i < |tiles|
    ensures tiles[i].size > 0 && exists k :: 0 <= k < |spans| && Inside(tiles[i], spans[k])
  {
    assert TileOk(tiles[i], dataSize, p, spans);
  }

  lemma InOneSpan(spans: seq<Span>, data: seq<Byte>, obus: seq<Obu>, t: Tile, k: nat)
    requires Placed(spans, data, |data|, obus) && k < |spans| && Inside(t, spans[k]) && t.size > 0
    ensures spans[k].end <= |data| && spans[k].begin <= spans[k].end
    ensures exists o :: o in obus && CarriesTiles(o) && data[spans[k].begin..spans[k].end] == o.payload
    ensures forall m :: 0 <= m < |spans| && Inside(t, spans[m]) ==> m == k
  {
  }

  // ---------- the access unit ----------

  datatype Built = Built(bytes: seq<Byte>, annexB: bool, hasSequence: bool, obuCount: nat, keyFrame: bool)

  /** Exactly one framing fits, and its tiles are valid. */
  ghost predicate Acceptable(p: Picture, tiles: seq<Tile>, data: seq<Byte>) {
    && 0 < |data| <= MAX_INPUT_BYTES && PictureOk(p)
    && (ParseRaw(data, p).Some? != ParseAnnexB(data, p).Some?)
    && TilesValid(tiles, |data|, p, Chosen(p, data).progress.spans)
  }

  ghost function Chosen(p: Picture, data: seq<Byte>): Outcome
    requires ParseRaw(data, p).Some? || ParseAnnexB(data, p).Some?
  {
    if ParseRaw(data, p).Some? then ParseRaw(data, p).value else ParseAnnexB(data, p).value
  }

  /** The bytes handed on parse as low-overhead OBUs that say what the input said, and are no longer than it. */
  ghost predicate SaysTheSame(p: Picture, data: seq<Byte>, built: Built)
    requires ParseRaw(data, p).Some? || ParseAnnexB(data, p).Some?
  {
    && |built.bytes| <= |data|
    && var after := ParseRaw(built.bytes, p);
    && after.Some? && after.value.obus == Chosen(p, data).obus
    && SameBut(Chosen(p, data).progress, after.value.progress)
    && built.hasSequence == after.value.progress.sequenceSeen
    && built.obuCount == after.value.progress.obuCount
  }

  method BuildAccessUnit(p: Picture, tiles: seq<Tile>, data: seq<Byte>) returns (r: Option<Built>)
    ensures r.Some? <==> Acceptable(p, tiles, data)
    ensures r.Some? ==> SaysTheSame(p, data, r.value)
    ensures r.Some? ==> r.value.annexB == ParseAnnexB(data, p).Some? && r.value.keyFrame == (p.frameType == 0)
    ensures r.Some? && !r.value.annexB ==> r.value.bytes == data
  {
    hide ParseRaw, ParseAnnexB, TilesValid, Rewrite, PictureOk;
    if |data| == 0 || |data| > MAX_INPUT_BYTES || !PictureOk(p) {
      return None;
    }
    var rawOk, rawState := ParseRawObus(data, p);
    var annexOk, annexState, size, obus := ParseAnnexBUnit(data, p, null);
    if rawOk == annexOk {
      return None;
    }
    if rawOk {
      var valid := ValidateTiles(tiles, |data|, p, rawState.payloads[..rawState.payloadCount]);
      if !valid {
        return None;
      }
      return Some(Built(data, false, rawState.sequenceSeen, rawState.obuCount, p.frameType == 0));
    }
    var valid := ValidateTiles(tiles, |data|, p, annexState.payloads[..annexState.payloadCount]);
    if !valid {
      return None;
    }
    AnnexBRewrites(data, p);
    var output := new Byte[size](_ => 0);
    var written, writtenState, writtenSize, writtenObus := ParseAnnexBUnit(data, p, output);
    assert output[..writtenSize] == output[..];
    return Some(Built(output[..], true, writtenState.sequenceSeen, writtenState.obuCount, p.frameType == 0));
  }

  /** A temporal unit that is built is handed on as the OBUs it was written from, each with its size. */
  lemma HandedOn(p: Picture, data: seq<Byte>, tu: seq<Byte>, fu: seq<Byte>, fs: seq<Av1Wire.Framed>, built: Built)
    returns (out: seq<Av1Wire.Framed>)
    requires Av1Wire.IsUnit(data, tu, fu, fs) && ParseRaw(data, p).None?
    requires ParseAnnexB(data, p).Some? && SaysTheSame(p, data, built)
    ensures Av1Wire.AllSized(out) && built.bytes == Av1Wire.Sized(out) && Av1Wire.Obus(out) == Av1Wire.Obus(fs)
  {
    hide Av1Wire.IsUnit, Av1Wire.AllSized, ParseRaw, ParseAnnexB, RunRaw;
    Av1Wire.UnitReads(data, tu, fu, fs, p);
    out := Av1Wire.StreamWritten(built.bytes, p);
    Av1Wire.StreamReads(out, p);
  }

  /** Whenever the length-prefixed parse accepts, the rewriting is accepted with the same OBUs, flags and counts. */
  lemma AnnexBRewrites(data: seq<Byte>, p: Picture)
    requires ParseAnnexB(data, p).Some?
    ensures var before := ParseAnnexB(data, p).value;
            var (tu, fu) := UnitFields(data).value;
            && Kinds(before.obus) && |Rewrite(before.obus)| <= |data| - tu - fu
            && var after := ParseRaw(Rewrite(before.obus), p);
            && after.Some? && after.value.obus == before.obus && SameBut(before.progress, after.value.progress)
  {
    hide RunAnnexB, RunRaw, Rewrite, UnitFields;
    var (tu, fu) := UnitFields(data).value;
    RewritePreserves(data[tu + fu..], tu + fu, FRESH, 0, FRESH, p);
  }
}
