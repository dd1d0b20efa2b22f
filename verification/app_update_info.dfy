/**
 * The wire forms of AppUpdateInfo, the update record of one application that
 * the update daemon's D-Bus interface carries.
 *
 * A D-Bus argument and a data stream are both modelled as a sequence of
 * tokens with a read cursor: a string, or a begin- or end-structure marker.
 * The byte encodings underneath are not part of this model. A read that finds
 * something other than what it expects, or nothing, yields an empty string
 * and puts the stream in a failed state, after which every read fails.
 */
module AppUpdateInfoCodec {

  /** The six string fields of an application's update record. */
  datatype AppUpdateInfo = AppUpdateInfo(
    id: string,
    name: string,
    icon: string,
    currentVersion: string,
    lastVersion: string,
    changelog: string)

  /** A default-constructed record, as failed reads leave it. */
  const EmptyInfo: AppUpdateInfo := AppUpdateInfo("", "", "", "", "", "")

  /** One element of a D-Bus argument or a data stream. */
  datatype Token = Str(value: string) | BeginMark | EndMark

  /** The fields in the order the debug printer emits them. */
  function DebugFields(info: AppUpdateInfo): seq<string>
  {
    [info.id, info.name, info.icon, info.currentVersion, info.lastVersion, info.changelog]
  }

  /** What the data-stream writer emits: the six fields, with no markers. */
  function EncodeStream(info: AppUpdateInfo): (ts: seq<Token>)
    ensures |ts| == 6 && forall i :: 0 <= i < 6 ==> ts[i].Str?
  {
    [Str(info.id), Str(info.name), Str(info.icon), Str(info.currentVersion), Str(info.lastVersion), Str(info.changelog)]
  }

  /** What the D-Bus writer emits: the six fields inside one structure. */
  function EncodeDBus(info: AppUpdateInfo): (ts: seq<Token>)
    ensures |ts| == 8 && ts[0] == BeginMark && ts[7] == EndMark
    ensures forall i :: 0 < i < 7 ==> ts[i].Str?
  {
    [BeginMark] + EncodeStream(info) + [EndMark]
  }

  /** A read position and whether the stream is still in a good state. */
  datatype Cursor = Cursor(pos: nat, ok: bool)

  /** Reading one string: the string at the cursor, or "" and a failed stream. */
  function ReadStringAt(ts: seq<Token>, c: Cursor): (string, Cursor)
  {
    if c.ok && c.pos < |ts| && ts[c.pos].Str? then (ts[c.pos].value, Cursor(c.pos + 1, true))
    else ("", Cursor(c.pos, false))
  }

  /** Entering or leaving a structure while reading: the marker at the cursor, or a failed stream. */
  function ReadMarkerAt(ts: seq<Token>, c: Cursor, marker: Token): Cursor
  {
    if c.ok && c.pos < |ts| && ts[c.pos] == marker then Cursor(c.pos + 1, true)
    else Cursor(c.pos, false)
  }

  /**
   * The data-stream reader: six strings, in field order. It either succeeds
   * after exactly six tokens or leaves the stream failed, and a stream that
   * has already failed yields the empty record without moving.
   */
  function DecodeStream(ts: seq<Token>, c: Cursor): (r: (AppUpdateInfo, Cursor))
    ensures r.1.ok ==> c.ok && r.1.pos == c.pos + 6 <= |ts|
    ensures !r.1.ok ==> c.pos <= r.1.pos < c.pos + 6
    ensures !c.ok ==> r == (EmptyInfo, c)
  {
    var (id, c1) := ReadStringAt(ts, c);
    var (name, c2) := ReadStringAt(ts, c1);
    var (icon, c3) := ReadStringAt(ts, c2);
    var (currentVersion, c4) := ReadStringAt(ts, c3);
    var (lastVersion, c5) := ReadStringAt(ts, c4);
    var (changelog, c6) := ReadStringAt(ts, c5);
    (AppUpdateInfo(id, name, icon, currentVersion, lastVersion, changelog), c6)
  }

  /**
   * The D-Bus reader: enter the structure, read the six strings, leave the
   * structure. It either succeeds after exactly eight tokens or leaves the
   * argument failed.
   */
  function DecodeDBus(ts: seq<Token>, c: Cursor): (r: (AppUpdateInfo, Cursor))
    ensures r.1.ok ==> c.ok && r.1.pos == c.pos + 8 <= |ts|
    ensures !r.1.ok ==> c.pos <= r.1.pos < c.pos + 8
    ensures !c.ok ==> r == (EmptyInfo, c)
  {
    var (info, c1) := DecodeStream(ts, ReadMarkerAt(ts, c, BeginMark));
    (info, ReadMarkerAt(ts, c1, EndMark))
  }

  /** Both writers emit the six fields in the debug printer's order: id, name, icon, current, last, changelog. */
  lemma WritersFollowFieldOrder(info: AppUpdateInfo)
    ensures |EncodeStream(info)| == |DebugFields(info)| == 6
    ensures forall i :: 0 <= i < 6 ==> EncodeStream(info)[i] == Str(DebugFields(info)[i])
    ensures forall i :: 0 <= i < 6 ==> EncodeDBus(info)[i + 1] == Str(DebugFields(info)[i])
  {
  }

  /**
   * Framing: the D-Bus form is one begin marker, the six strings and one end
   * marker; the data-stream form holds no marker at all.
   */
  lemma DBusFraming(info: AppUpdateInfo)
    ensures |EncodeDBus(info)| == 8
    ensures EncodeDBus(info)[0] == BeginMark && EncodeDBus(info)[7] == EndMark
    ensures forall i :: 0 < i < 7 ==> EncodeDBus(info)[i].Str?
    ensures forall t | t in EncodeStream(info) :: t.Str?
  {
  }

  /**
   * Data-stream round trip: reading at the place where a record was written
   * gives the record back, consumes exactly its six tokens and leaves whatever
   * follows for the next read.
   */
  lemma StreamRoundTrip(before: seq<Token>, info: AppUpdateInfo, after: seq<Token>)
    ensures DecodeStream(before + EncodeStream(info) + after, Cursor(|before|, true))
         == (info, Cursor(|before| + 6, true))
  {
    var ts := before + EncodeStream(info) + after;
    forall k | 0 <= k < 6
      ensures ts[|before| + k] == EncodeStream(info)[k]
    {
    }
  }

  /**
   * D-Bus round trip: reading at the place where a record was written gives
   * the record back, consumes exactly its eight tokens and leaves whatever
   * follows for the next read.
   */
  lemma DBusRoundTrip(before: seq<Token>, info: AppUpdateInfo, after: seq<Token>)
    ensures DecodeDBus(before + EncodeDBus(info) + after, Cursor(|before|, true))
         == (info, Cursor(|before| + 8, true))
  {
    var ts := before + EncodeDBus(info) + after;
    assert ts == (before + [BeginMark]) + EncodeStream(info) + ([EndMark] + after);
    StreamRoundTrip(before + [BeginMark], info, [EndMark] + after);
    assert ts[|before|] == BeginMark;
    assert ts[|before| + 7] == EndMark;
  }

  /** Two records written one after the other are read back one after the other. */
  lemma StreamReadsRecordsInOrder(first: AppUpdateInfo, second: AppUpdateInfo)
    ensures var ts := EncodeStream(first) + EncodeStream(second);
      var (a, c) := DecodeStream(ts, Cursor(0, true));
      var (b, d) := DecodeStream(ts, c);
      a == first && b == second && d == Cursor(12, true)
  {
    var ts := EncodeStream(first) + EncodeStream(second);
    StreamRoundTrip([], first, EncodeStream(second));
    assert [] + EncodeStream(first) + EncodeStream(second) == ts;
    StreamRoundTrip(EncodeStream(first), second, []);
    assert EncodeStream(first) + EncodeStream(second) + [] == ts;
  }

  /** Once a stream has failed, reading a record gives the empty record and moves nothing. */
  lemma FailedStreamReadsNothing(ts: seq<Token>, c: Cursor)
    requires !c.ok
    ensures DecodeStream(ts, c) == (EmptyInfo, c)
    ensures DecodeDBus(ts, c) == (EmptyInfo, c)
  {
  }

  /**
   * The reader accepts only what the writer produces: a successful read
   * consumed six string tokens that encode the record it returned, so fewer
   * than six remaining tokens make the read fail.
   */
  lemma StreamReadSucceedsOnlyOnEncoding(ts: seq<Token>, c: Cursor)
    ensures var (info, d) := DecodeStream(ts, c);
      d.ok ==> c.ok && d.pos == c.pos + 6 && d.pos <= |ts| && ts[c.pos..d.pos] == EncodeStream(info)
    ensures c.pos + 6 > |ts| ==> !DecodeStream(ts, c).1.ok
  {
    var (info, d) := DecodeStream(ts, c);
    if d.ok {
      assert c.ok && c.pos + 6 <= |ts|;
      forall k | 0 <= k < 6
        ensures ts[c.pos..d.pos][k] == EncodeStream(info)[k]
      {
      }
    }
  }

  /**
   * The same for the D-Bus reader: a successful read consumed eight tokens,
   * the structure markers around the encoding of the record it returned.
   */
  lemma DBusReadSucceedsOnlyOnEncoding(ts: seq<Token>, c: Cursor)
    ensures var (info, d) := DecodeDBus(ts, c);
      d.ok ==> c.ok && d.pos == c.pos + 8 && d.pos <= |ts| && ts[c.pos..d.pos] == EncodeDBus(info)
    ensures c.pos + 8 > |ts| ==> !DecodeDBus(ts, c).1.ok
  {
    var c0 := ReadMarkerAt(ts, c, BeginMark);
    StreamReadSucceedsOnlyOnEncoding(ts, c0);
    var (info, d) := DecodeDBus(ts, c);
    if d.ok {
      var c1 := DecodeStream(ts, c0).1;
      assert c0.ok && c1.ok && c0.pos == c.pos + 1 && d.pos == c1.pos + 1;
      assert ts[c.pos..d.pos] == [ts[c.pos]] + ts[c0.pos..c1.pos] + [ts[c1.pos]];
    }
  }

  /** A D-Bus argument or a data stream: its tokens and a read cursor. */
  class TokenStream {
    var tokens: seq<Token>
    var pos: nat
    var ok: bool

    function CursorOf(): Cursor
      reads this
    {
      Cursor(pos, ok)
    }

    constructor (tokens: seq<Token>)
      ensures this.tokens == tokens && CursorOf() == Cursor(0, true)
    {
      this.tokens := tokens;
      pos, ok := 0, true;
    }

    /** `<<` of one string. */
    method WriteString(s: string)
      modifies this`tokens
      ensures tokens == old(tokens) + [Str(s)]
    {
      tokens := tokens + [Str(s)];
    }

    /** beginStructure or endStructure on an argument being written. */
    method WriteMarker(marker: Token)
      requires !marker.Str?
      modifies this`tokens
      ensures tokens == old(tokens) + [marker]
    {
      tokens := tokens + [marker];
    }

    /** `>>` of one string. */
    method ReadString() returns (s: string)
      modifies this`pos, this`ok
      ensures (s, CursorOf()) == ReadStringAt(tokens, old(CursorOf()))
    {
      if ok && pos < |tokens| && tokens[pos].Str? {
        s := tokens[pos].value;
        pos := pos + 1;
      } else {
        s := "";
        ok := false;
      }
    }

    /** beginStructure or endStructure on an argument being read. */
    method ReadMarker(marker: Token)
      requires !marker.Str?
      modifies this`pos, this`ok
      ensures CursorOf() == ReadMarkerAt(tokens, old(CursorOf()), marker)
    {
      if ok && pos < |tokens| && tokens[pos] == marker {
        pos := pos + 1;
      } else {
        ok := false;
      }
    }
  }

  /** operator<<(QDBusArgument&, const AppUpdateInfo&). */
  method WriteDBusArgument(argument: TokenStream, info: AppUpdateInfo)
    modifies argument`tokens
    ensures argument.tokens == old(argument.tokens) + EncodeDBus(info)
  {
    argument.WriteMarker(BeginMark);
    argument.WriteString(info.id);
    argument.WriteString(info.name);
    argument.WriteString(info.icon);
    argument.WriteString(info.currentVersion);
    argument.WriteString(info.lastVersion);
    argument.WriteString(info.changelog);
    argument.WriteMarker(EndMark);
  }

  /** operator<<(QDataStream&, const AppUpdateInfo&). */
  method WriteDataStream(stream: TokenStream, info: AppUpdateInfo)
    modifies stream`tokens
    ensures stream.tokens == old(stream.tokens) + EncodeStream(info)
  {
    stream.WriteString(info.id);
    stream.WriteString(info.name);
    stream.WriteString(info.icon);
    stream.WriteString(info.currentVersion);
    stream.WriteString(info.lastVersion);
    stream.WriteString(info.changelog);
  }

  /** operator>>(const QDBusArgument&, AppUpdateInfo&): the record read is the out-parameter. */
  method ReadDBusArgument(argument: TokenStream) returns (info: AppUpdateInfo)
    modifies argument`pos, argument`ok
    ensures (info, argument.CursorOf()) == DecodeDBus(argument.tokens, old(argument.CursorOf()))
  {
    argument.ReadMarker(BeginMark);
    info := ReadFields(argument);
    argument.ReadMarker(EndMark);
  }

  /** operator>>(QDataStream&, AppUpdateInfo&): the record read is the out-parameter. */
  method ReadDataStream(stream: TokenStream) returns (info: AppUpdateInfo)
    modifies stream`pos, stream`ok
    ensures (info, stream.CursorOf()) == DecodeStream(stream.tokens, old(stream.CursorOf()))
  {
    info := ReadFields(stream);
  }

  /** The six reads both readers share, one field after the other. */
  method ReadFields(stream: TokenStream) returns (info: AppUpdateInfo)
    modifies stream`pos, stream`ok
    ensures (info, stream.CursorOf()) == DecodeStream(stream.tokens, old(stream.CursorOf()))
  {
    var id := stream.ReadString();
    var name := stream.ReadString();
    var icon := stream.ReadString();
    var currentVersion := stream.ReadString();
    var lastVersion := stream.ReadString();
    var changelog := stream.ReadString();
    info := AppUpdateInfo(id, name, icon, currentVersion, lastVersion, changelog);
  }
}
