/**
 Page cursors of the run listing: a time and a run id as JSON text in base64url without padding
 (section 5 of RFC 4648). A time, a non-negative finite float, is represented by its bit pattern, which
 keeps the order. The JSON parser and the parser of hexadecimal floats are parameters.
 */
module RunCursor {
  import opened Decimals
  import opened Text
  import opened Wrappers

  /* ---------- base64url ---------- */

  type Octet = x: int | 0 <= x < 256

  function CharOf(v: int): char
    requires 0 <= v < 64
  {
    if v < 26 then ('A' as int + v) as char
    else if v < 52 then ('a' as int + v - 26) as char
    else if v < 62 then ('0' as int + v - 52) as char
    else if v == 62 then '-' else '_'
  }

  function ValueOf(c: char): (r: Option<int>)
    ensures r.Some? ==> 0 <= r.value < 64
  {
    if 'A' <= c <= 'Z' then Some(c as int - 'A' as int)
    else if 'a' <= c <= 'z' then Some(c as int - 'a' as int + 26)
    else if '0' <= c <= '9' then Some(c as int - '0' as int + 52)
    else if c == '-' then Some(62)
    else if c == '_' then Some(63)
    else None
  }

  predicate IsToken(s: string) {
    1 <= |s| <= 1024 && AllValued(s)
  }

  function Encode64(b: seq<Octet>): string {
    if |b| == 0 then ""
    else if |b| == 1 then [CharOf(b[0] / 4), CharOf(b[0] % 4 * 16)]
    else if |b| == 2 then [CharOf(b[0] / 4), CharOf(b[0] % 4 * 16 + b[1] / 16), CharOf(b[1] % 16 * 4)]
    else
      [CharOf(b[0] / 4), CharOf(b[0] % 4 * 16 + b[1] / 16), CharOf(b[1] % 16 * 4 + b[2] / 64), CharOf(b[2] % 64)]
      + Encode64(b[3..])
  }

  // The bytes of one group of two to four characters; spare bits are ignored, as the decoder does.
  function Group(s: string): Option<seq<Octet>>
    requires 2 <= |s| <= 4
  {
    if ValueOf(s[0]).None? || ValueOf(s[1]).None? || (|s| > 2 && ValueOf(s[2]).None?)
       || (|s| > 3 && ValueOf(s[3]).None?)
    then None
    else
      var v0, v1 := ValueOf(s[0]).value, ValueOf(s[1]).value;
      var first := v0 * 4 + v1 / 16;
      if |s| == 2 then Some([first])
      else
        var v2 := ValueOf(s[2]).value;
        var second := v1 % 16 * 16 + v2 / 4;
        if |s| == 3 then Some([first, second]) else Some([first, second, v2 % 4 * 64 + ValueOf(s[3]).value])
  }

  /** Decoding after the padding was restored; a single left-over character cannot be padded. */
  function Decode64(s: string): Option<seq<Octet>> {
    if |s| == 0 then Some([])
    else if |s| == 1 then None
    else if |s| <= 4 then Group(s)
    else
      var head, rest := Group(s[..4]), Decode64(s[4..]);
      if head.Some? && rest.Some? then Some(head.value + rest.value) else None
  }

  lemma CharRoundTrip(v: int)
    requires 0 <= v < 64
    ensures ValueOf(CharOf(v)) == Some(v)
  {
  }

  // Cutting octets into groups of six bits and putting them together again.
  lemma SixBits(x: Octet, y: Octet)
    ensures 0 <= x / 4 < 64 && 0 <= x % 4 * 16 + y / 16 < 64 && 0 <= x % 16 * 4 + y / 64 < 64
    ensures x / 4 * 4 + (x % 4 * 16 + y / 16) / 16 == x
    ensures (x % 4 * 16 + y / 16) % 16 * 16 + (y % 16 * 4) / 4 == y
    ensures (x % 16 * 4 + y / 64) % 4 * 64 + y % 64 == y
    ensures (x % 16 * 4 + y / 64) / 4 == x % 16
  {
  }

  lemma FullGroupText(b: seq<Octet>)
    requires |b| == 3
    ensures Encode64(b) ==
            [CharOf(b[0] / 4), CharOf(b[0] % 4 * 16 + b[1] / 16), CharOf(b[1] % 16 * 4 + b[2] / 64), CharOf(b[2] % 64)]
  {
    hide CharOf;
    assert b[3..] == [] && Encode64(b[3..]) == "";
  }

  lemma FullGroupValue(s: string, v0: nat, v1: nat, v2: nat, v3: nat)
    requires |s| == 4 && v0 < 64 && v1 < 64 && v2 < 64 && v3 < 64
    requires ValueOf(s[0]) == Some(v0) && ValueOf(s[1]) == Some(v1)
    requires ValueOf(s[2]) == Some(v2) && ValueOf(s[3]) == Some(v3)
    ensures Group(s) == Some([v0 * 4 + v1 / 16, v1 % 16 * 16 + v2 / 4, v2 % 4 * 64 + v3])
  {
    hide ValueOf;
  }

  lemma FullGroupRoundTrip(b: seq<Octet>)
    requires |b| == 3
    ensures |Encode64(b)| == 4 && Group(Encode64(b)) == Some(b)
  {
    hide CharOf, ValueOf, Encode64, Group;
    SixBits(b[0], b[1]);
    SixBits(b[1], b[2]);
    var v1, v2 := b[0] % 4 * 16 + b[1] / 16, b[1] % 16 * 4 + b[2] / 64;
    CharRoundTrip(b[0] / 4);
    CharRoundTrip(v1);
    CharRoundTrip(v2);
    CharRoundTrip(b[2] % 64);
    FullGroupText(b);
    FullGroupValue(Encode64(b), b[0] / 4, v1, v2, b[2] % 64);
    assert b == [b[0], b[1], b[2]];
  }

  lemma GroupRoundTrip(b: seq<Octet>)
    requires 1 <= |b| <= 3
    ensures 2 <= |Encode64(b)| <= 4 && Group(Encode64(b)) == Some(b)
    ensures |Encode64(b)| == |b| + 1
  {
    hide CharOf, ValueOf;
    if |b| == 3 {
      FullGroupRoundTrip(b);
    } else {
      SixBits(b[0], if |b| == 2 then b[1] else 0);
      CharRoundTrip(b[0] / 4);
      if |b| == 1 {
        CharRoundTrip(b[0] % 4 * 16);
        assert b == [b[0]];
      } else {
        CharRoundTrip(b[0] % 4 * 16 + b[1] / 16);
        CharRoundTrip(b[1] % 16 * 4);
        assert b == [b[0], b[1]];
      }
    }
  }

  predicate AllValued(s: string) {
    forall i :: 0 <= i < |s| ==> ValueOf(s[i]).Some?
  }

  lemma GroupValued(s: string)
    requires 2 <= |s| <= 4 && Group(s).Some?
    ensures AllValued(s)
  {
    hide ValueOf;
    forall i | 0 <= i < |s| ensures ValueOf(s[i]).Some? {
      assert i == 0 || i == 1 || i == 2 || i == 3;
    }
  }

  lemma EncodeSplits(b: seq<Octet>)
    requires |b| > 3
    ensures Encode64(b) == Encode64(b[..3]) + Encode64(b[3..])
  {
    hide CharOf;
    var head := b[..3];
    assert head[3..] == [] && Encode64(head[3..]) == "";
    assert head[0] == b[0] && head[1] == b[1] && head[2] == b[2];
    var group :=
      [CharOf(b[0] / 4), CharOf(b[0] % 4 * 16 + b[1] / 16), CharOf(b[1] % 16 * 4 + b[2] / 64), CharOf(b[2] % 64)];
    assert Encode64(head) == group + "" == group;
  }

  lemma DecodeJoins(s: string, t: string)
    requires |s| == 4 && |t| >= 2
    ensures Decode64(s + t) ==
            if Group(s).Some? && Decode64(t).Some? then Some(Group(s).value + Decode64(t).value) else None
  {
    assert (s + t)[..4] == s && (s + t)[4..] == t;
  }

  /** Decoding undoes encoding, for every byte string. */
  lemma {:induction false} RoundTrip64(b: seq<Octet>)
    ensures Decode64(Encode64(b)) == Some(b)
    ensures (b != [] ==> |Encode64(b)| >= 2) && 3 * |Encode64(b)| <= 4 * |b| + 2
    ensures AllValued(Encode64(b))
  {
    if 1 <= |b| <= 3 {
      GroupRoundTrip(b);
      GroupValued(Encode64(b));
    } else if |b| > 3 {
      hide Encode64, Decode64, Group, ValueOf;
      GroupRoundTrip(b[..3]);
      GroupValued(Encode64(b[..3]));
      RoundTrip64(b[3..]);
      EncodeSplits(b);
      DecodeJoins(Encode64(b[..3]), Encode64(b[3..]));
      assert b == b[..3] + b[3..];
    }
  }

  /** The token with the spare bits of its last character cleared. */
  function Cleared(s: string): string
    requires AllValued(s)
  {
    var n := |s| - 1;
    if |s| % 4 == 2 then s[..n] + [CharOf(ValueOf(s[n]).value / 16 * 16)]
    else if |s| % 4 == 3 then s[..n] + [CharOf(ValueOf(s[n]).value / 4 * 4)]
    else s
  }

  lemma ValueRoundTrip(c: char)
    requires ValueOf(c).Some?
    ensures CharOf(ValueOf(c).value) == c
  {
  }

  // The bits of three characters that the bytes of a group keep.
  lemma BitsKept(v0: int, v1: int, v2: int)
    requires 0 <= v0 < 64 && 0 <= v1 < 64 && 0 <= v2 < 64
    ensures var b0, b1 := v0 * 4 + v1 / 16, v1 % 16 * 16 + v2 / 4;
            && b0 / 4 == v0 && b0 % 4 * 16 == v1 / 16 * 16
            && b0 % 4 * 16 + b1 / 16 == v1 && b1 % 16 * 4 == v2 / 4 * 4
  {
    assert (v0 * 4 + v1 / 16) / 4 == v0 && (v0 * 4 + v1 / 16) % 4 == v1 / 16;
    assert (v1 % 16 * 16 + v2 / 4) / 16 == v1 % 16 && (v1 % 16 * 16 + v2 / 4) % 16 == v2 / 4;
  }

  lemma LastBitsKept(v2: int, v3: int)
    requires 0 <= v2 < 64 && 0 <= v3 < 64
    ensures var b2 := v2 % 4 * 64 + v3; v2 / 4 * 4 + b2 / 64 == v2 && b2 % 64 == v3
  {
    assert (v2 % 4 * 64 + v3) / 64 == v2 % 4;
  }

  lemma GroupClears(s: string)
    requires 2 <= |s| <= 4 && Group(s).Some?
    ensures AllValued(s) && Encode64(Group(s).value) == Cleared(s) && |Group(s).value| == |s| - 1
  {
    GroupValued(s);
    ValueRoundTrip(s[0]);
    ValueRoundTrip(s[1]);
    hide CharOf, ValueOf;
    var v0, v1 := ValueOf(s[0]).value, ValueOf(s[1]).value;
    if |s| == 2 {
      BitsKept(v0, v1, 0);
      assert Cleared(s) == [s[0], CharOf(v1 / 16 * 16)];
    } else if |s| == 3 {
      BitsKept(v0, v1, ValueOf(s[2]).value);
      assert Cleared(s) == [s[0], s[1], CharOf(ValueOf(s[2]).value / 4 * 4)];
    } else {
      FourClear(s);
    }
  }

  lemma FourClear(s: string)
    requires |s| == 4 && Group(s).Some?
    ensures Encode64(Group(s).value) == s && |Group(s).value| == 3
  {
    GroupValued(s);
    forall i | 0 <= i < 4 ensures CharOf(ValueOf(s[i]).value) == s[i] {
      ValueRoundTrip(s[i]);
    }
    hide CharOf, ValueOf;
    var b := Group(s).value;
    BitsKept(ValueOf(s[0]).value, ValueOf(s[1]).value, ValueOf(s[2]).value);
    LastBitsKept(ValueOf(s[2]).value, ValueOf(s[3]).value);
    assert b[3..] == [] && Encode64(b[3..]) == "";
    assert s == [s[0], s[1], s[2], s[3]];
  }

  lemma TailOf(s: string, t: string)
    requires t != ""
    ensures (s + t)[|s + t| - 1] == t[|t| - 1] && (s + t)[..|s + t| - 1] == s + t[..|t| - 1]
  {
  }

  lemma ClearedTail(s: string, t: string)
    requires |s| == 4 && t != "" && AllValued(s) && AllValued(t)
    ensures AllValued(s + t) && Cleared(s + t) == s + Cleared(t)
  {
    hide CharOf, ValueOf;
    TailOf(s, t);
    hide AllValued;
    assert |s + t| % 4 == |t| % 4;
  }

  /** Encoding what a token decodes to clears its spare bits and changes nothing else. */
  lemma {:induction false} ReencodingClears(s: string)
    requires Decode64(s).Some?
    ensures AllValued(s) && Encode64(Decode64(s).value) == Cleared(s)
    ensures s != "" ==> Decode64(s).value != []
    decreases |s|
  {
    if 2 <= |s| <= 4 {
      GroupClears(s);
    } else if |s| > 4 {
      var head, rest := s[..4], s[4..];
      assert s == head + rest;
      GroupClears(head);
      ReencodingClears(rest);
      ClearedTail(head, rest);
      var b := Group(head).value;
      hide Group, CharOf, ValueOf, Cleared;
      EncodeSplits(b + Decode64(rest).value);
      assert (b + Decode64(rest).value)[..3] == b && (b + Decode64(rest).value)[3..] == Decode64(rest).value;
    }
  }

  /** Tokens share their bytes exactly when they differ in spare bits only; re-encoding keeps the one without any. */
  lemma SharedBytes(s: string, t: string)
    requires Decode64(s).Some? && Decode64(t).Some?
    ensures AllValued(s) && AllValued(t)
    ensures Decode64(s) == Decode64(t) <==> Cleared(s) == Cleared(t)
    ensures Encode64(Decode64(s).value) == s <==> Cleared(s) == s
  {
    ReencodingClears(s);
    ReencodingClears(t);
    RoundTrip64(Decode64(s).value);
    RoundTrip64(Decode64(t).value);
  }

  /* ---------- run ids and characters ---------- */

  predicate IsAlnum(c: char) {
    'A' <= c <= 'Z' || 'a' <= c <= 'z' || '0' <= c <= '9'
  }

  predicate IsRunId(s: string) {
    1 <= |s| <= 128 && IsAlnum(s[0]) && forall i :: 0 <= i < |s| ==> IsAlnum(s[i]) || s[i] == '_' || s[i] == '-'
  }

  predicate IsAscii(s: string) {
    forall i :: 0 <= i < |s| ==> s[i] as int < 128
  }

  /* ---------- times ---------- */

  // 2^52, the number of fractions of one binary exponent
  const FRACTION := 0x10_0000_0000_0000

  /** The bit patterns of non-negative finite doubles. */
  type Time = t: int | 0 <= t < 0x7FF * FRACTION

  const HEX_DIGITS := "0123456789abcdef"

  function Pow16(k: nat): (r: nat)
    ensures r >= 1
  {
    if k == 0 then 1 else 16 * Pow16(k - 1)
  }

  /** n as k hexadecimal digits. */
  function HexFixed(n: nat, k: nat): (r: string)
    ensures |r| == k
  {
    if k == 0 then "" else HexFixed(n / 16, k - 1) + [HEX_DIGITS[n % 16]]
  }

  function Signed(n: int): string {
    if n < 0 then "-" + Decimal(-n) else "+" + Decimal(n)
  }

  /** `float.hex()` */
  function Hex(t: Time): string {
    var exponent, fraction := t / FRACTION, HexFixed(t % FRACTION, 13);
    if t == 0 then "0x0.0p+0"
    else if exponent == 0 then "0x0." + fraction + "p-1022"
    else "0x1." + fraction + "p" + Signed(exponent - 1023)
  }

  predicate IsPlain(c: char) {
    c as int < 128 && c != '\"'
  }

  predicate AllPlain(s: string) {
    forall i :: 0 <= i < |s| ==> IsPlain(s[i])
  }

  lemma PlainJoin(a: string, b: string)
    requires AllPlain(a) && AllPlain(b)
    ensures AllPlain(a + b)
  {
  }

  lemma {:induction false} HexFixedPlain(n: nat, k: nat)
    ensures AllPlain(HexFixed(n, k))
  {
    if k > 0 {
      HexFixedPlain(n / 16, k - 1);
    }
  }

  lemma SignedPlain(n: int)
    requires -1023 < n <= 1023
    ensures AllPlain(Signed(n)) && |Signed(n)| <= 5
  {
    var m := if n < 0 then -n else n;
    DecimalIsCanonical(m);
    assert Pow10(4) == 10_000;
    WidthBound(m, 4);
    hide Decimal;
    assert AllPlain(Decimal(m));
  }

  lemma HexPlain(t: Time)
    ensures AllPlain(Hex(t)) && |Hex(t)| <= 24
  {
    var exponent, fraction := t / FRACTION, HexFixed(t % FRACTION, 13);
    HexFixedPlain(t % FRACTION, 13);
    if exponent > 0 {
      SignedPlain(exponent - 1023);
    }
    hide HexFixed, Signed;
    PlainJoin("0x0.", fraction);
    PlainJoin("0x0." + fraction, "p-1022");
    PlainJoin("0x1.", fraction);
    PlainJoin("0x1." + fraction, "p");
    if exponent > 0 {
      PlainJoin("0x1." + fraction + "p", Signed(exponent - 1023));
    }
  }

  /* ---------- the payload ---------- */

  datatype Cursor = Cursor(startedAt: Time, runId: string)

  datatype Fields = Fields(kind: string, runId: string, startedAtHex: string, version: int)

  const HEX_MAX := 64
  const RAW_MAX := 512

  function Quoted(s: string, rest: string): string {
    "\"" + s + "\"" + rest
  }

  /** `json.dumps` with sorted keys and no spaces, on values that need no escapes. */
  function Payload(runId: string, hex: string): string {
    "{" + Quoted("kind", ":" + Quoted("agent_runs",
      "," + Quoted("run_id", ":" + Quoted(runId,
        "," + Quoted("started_at_hex", ":" + Quoted(hex,
          "," + Quoted("version", ":1}")))))))
  }

  /** The parsers: they read back what was written for a cursor, and may accept any other text in any way. */
  datatype Library = Library(parse: string -> Option<Fields>, fromHex: string -> Option<Time>) {
    ghost predicate Ok() {
      && (forall t: Time :: fromHex(Hex(t)) == Some(t))
      && forall id: string, t: Time :: IsRunId(id) ==>
           parse(Payload(id, Hex(t))) == Some(Fields("agent_runs", id, Hex(t), 1))
    }
  }

  function Octets(s: string): (r: seq<Octet>)
    requires IsAscii(s)
    ensures |r| == |s|
  {
    if s == "" then [] else [s[0] as int] + Octets(s[1..])
  }

  function Characters(b: seq<Octet>): string {
    if b == [] then "" else [b[0] as char] + Characters(b[1..])
  }

  lemma {:induction false} OctetsBack(s: string)
    requires IsAscii(s)
    ensures Characters(Octets(s)) == s
  {
    if s != "" {
      OctetsBack(s[1..]);
    }
  }

  lemma PlainIsAscii(s: string)
    requires AllPlain(s)
    ensures IsAscii(s)
  {
  }

  lemma RunIdPlain(id: string)
    requires IsRunId(id)
    ensures AllPlain(id)
  {
  }

  lemma AsciiQuoted(before: string, s: string, rest: string)
    requires IsAscii(before) && IsAscii(s) && IsAscii(rest)
    ensures IsAscii(before + Quoted(s, rest)) && |before + Quoted(s, rest)| == |before| + |s| + |rest| + 2
  {
  }

  lemma PayloadAscii(runId: string, hex: string)
    requires IsRunId(runId) && AllPlain(hex)
    ensures IsAscii(Payload(runId, hex)) && 1 <= |Payload(runId, hex)| <= 80 + |runId| + |hex|
  {
    RunIdPlain(runId);
    PlainIsAscii(runId);
    PlainIsAscii(hex);
    hide AllPlain, IsRunId, Quoted;
    AsciiQuoted(",", "version", ":1}");
    var version := "," + Quoted("version", ":1}");
    AsciiQuoted(":", hex, version);
    var afterTime := ":" + Quoted(hex, version);
    AsciiQuoted(",", "started_at_hex", afterTime);
    var time := "," + Quoted("started_at_hex", afterTime);
    AsciiQuoted(":", runId, time);
    var afterId := ":" + Quoted(runId, time);
    AsciiQuoted(",", "run_id", afterId);
    var id := "," + Quoted("run_id", afterId);
    AsciiQuoted(":", "agent_runs", id);
    AsciiQuoted("{", "kind", ":" + Quoted("agent_runs", id));
  }

  function EncodeCursor(c: Cursor): string
    requires IsRunId(c.runId)
  {
    HexPlain(c.startedAt);
    PayloadAscii(c.runId, Hex(c.startedAt));
    Encode64(Octets(Payload(c.runId, Hex(c.startedAt))))
  }

  function DecodeCursor(l: Library, token: string): Option<Cursor> {
    if !IsToken(token) then None
    else
      var raw := Decode64(token);
      if raw.None? || raw.value == [] || |raw.value| > RAW_MAX then None
      else if !IsAscii(Characters(raw.value)) then None
      else
        var fields := l.parse(Characters(raw.value));
        if fields.None? || fields.value.kind != "agent_runs" || fields.value.version != 1 then None
        else if |fields.value.startedAtHex| > HEX_MAX then None
        else
          var time := l.fromHex(fields.value.startedAtHex);
          if time.None? || Hex(time.value) != fields.value.startedAtHex then None
          else
            var c := Cursor(time.value, fields.value.runId);
            if IsRunId(c.runId) && EncodeCursor(c) == token then Some(c) else None
  }

  /** Every cursor survives the round trip through its token. */
  lemma DecodeEncode(l: Library, c: Cursor)
    requires l.Ok() && IsRunId(c.runId)
    ensures DecodeCursor(l, EncodeCursor(c)) == Some(c)
  {
    var hex := Hex(c.startedAt);
    var text := Payload(c.runId, hex);
    HexPlain(c.startedAt);
    PayloadAscii(c.runId, hex);
    RoundTrip64(Octets(text));
    OctetsBack(text);
    assert l.parse(text) == Some(Fields("agent_runs", c.runId, hex, 1));
    assert l.fromHex(hex) == Some(c.startedAt);
    hide Hex, Payload, Encode64, Decode64, Octets, Characters;
  }

  /** A token stands for a cursor exactly when it is that cursor's encoding, whatever the parsers accept besides. */
  lemma TokensAreCanonical(l: Library, token: string, c: Cursor)
    requires l.Ok()
    ensures DecodeCursor(l, token) == Some(c) <==> IsRunId(c.runId) && token == EncodeCursor(c)
  {
    if IsRunId(c.runId) && token == EncodeCursor(c) {
      DecodeEncode(l, c);
    }
  }

  /* ---------- such parsers exist ---------- */

  function HexDigit(c: char): nat {
    if '0' <= c <= '9' then c as int - '0' as int
    else if 'a' <= c <= 'f' then c as int - 'a' as int + 10
    else 0
  }

  function HexValue(s: string): nat {
    if s == "" then 0 else HexValue(s[..|s| - 1]) * 16 + HexDigit(s[|s| - 1])
  }

  lemma HexDigitBack(d: nat)
    requires d < 16
    ensures HexDigit(HEX_DIGITS[d]) == d
  {
  }

  lemma {:induction false} HexFixedBack(n: nat, k: nat)
    requires n < Pow16(k)
    ensures HexValue(HexFixed(n, k)) == n
  {
    if k > 0 {
      HexFixedBack(n / 16, k - 1);
      HexDigitBack(n % 16);
      hide HexDigit, HEX_DIGITS;
      var s := HexFixed(n, k);
      assert s[..|s| - 1] == HexFixed(n / 16, k - 1);
    }
  }

  function SignedValue(s: string): int {
    if s == "" || !AllDigits(s[1..]) then 0
    else if s[0] == '-' then 0 - Value(s[1..]) else Value(s[1..])
  }

  lemma SignedBack(n: int)
    ensures SignedValue(Signed(n)) == n
  {
    var m := if n < 0 then -n else n;
    DecimalIsCanonical(m);
    hide Decimal, Value;
    assert Signed(n)[1..] == Decimal(m);
  }

  /** Reads what `Hex` writes, by position. */
  function ReadHex(h: string): Option<Time> {
    if |h| < 18 then if h == "0x0.0p+0" then Some(0) else None
    else
      var fraction := HexValue(h[4..17]);
      var t := if h[2] == '0' then fraction else (SignedValue(h[18..]) + 1023) * FRACTION + fraction;
      if 0 <= t < 0x7FF * FRACTION then Some(t) else None
  }

  lemma PowThirteen()
    ensures Pow16(13) == FRACTION
  {
    assert Pow16(4) == 0x1_0000;
    assert Pow16(8) == 0x1_0000_0000;
  }

  lemma HexSlices(lead: string, fraction: string, tail: string)
    requires |lead| == 4 && |fraction| == 13
    ensures var h := lead + fraction + "p" + tail;
            |h| >= 18 && h[2] == lead[2] && h[4..17] == fraction && h[18..] == tail
  {
  }

  lemma ReadNormal(lead: string, fraction: string, tail: string, t: Time)
    requires |lead| == 4 && |fraction| == 13
    requires t == if lead[2] == '0' then HexValue(fraction)
                  else (SignedValue(tail) + 1023) * FRACTION + HexValue(fraction)
    ensures ReadHex(lead + fraction + "p" + tail) == Some(t)
  {
    hide HexValue, SignedValue;
    HexSlices(lead, fraction, tail);
  }

  lemma TimeSplits(t: Time)
    ensures t / FRACTION >= 0 && 0 <= t % FRACTION < FRACTION && t == t / FRACTION * FRACTION + t % FRACTION
  {
  }

  lemma ReadHexBack(t: Time)
    ensures ReadHex(Hex(t)) == Some(t)
  {
    if t > 0 {
      hide HexFixed, HexValue, Signed, SignedValue, Pow16, ReadHex;
      var exponent, fraction := t / FRACTION, HexFixed(t % FRACTION, 13);
      PowThirteen();
      HexFixedBack(t % FRACTION, 13);
      SignedBack(exponent - 1023);
      TimeSplits(t);
      if exponent == 0 {
        ReadNormal("0x0.", fraction, "-1022", t);
        assert "0x0." + fraction + "p-1022" == "0x0." + fraction + "p" + "-1022";
      } else {
        ReadNormal("0x1.", fraction, Signed(exponent - 1023), t);
      }
    }
  }

  /* ---------- what the text of a time means ---------- */

  // A finite double is its significand times two to its power.
  function Significand(t: Time): nat {
    if t < 0x10_0000_0000_0000 then t else 0x10_0000_0000_0000 + t % 0x10_0000_0000_0000
  }

  function Power(t: Time): int {
    if t < 0x10_0000_0000_0000 then -1074 else t / 0x10_0000_0000_0000 - 1075
  }

  lemma TimeParts(t: Time)
    ensures t / FRACTION >= 0 && 0 <= t % FRACTION < FRACTION
    ensures t < FRACTION ==> t / FRACTION == 0 && Significand(t) == t % FRACTION && Power(t) == -1074
    ensures t >= FRACTION ==>
              t / FRACTION > 0 && Significand(t) == FRACTION + t % FRACTION && Power(t) == t / FRACTION - 1075
  {
  }

  // The text of a positive time in its parts.
  lemma HexParts(t: Time) returns (lead: char, exponent: string)
    requires t > 0
    ensures Hex(t) == "0x" + [lead] + "." + HexFixed(t % FRACTION, 13) + "p" + exponent
    ensures if t < FRACTION then lead == '0' && exponent == "-1022"
            else lead == '1' && exponent == Signed(t / FRACTION - 1023)
  {
    TimeParts(t);
    hide Significand, Power, Signed, HexFixed;
    lead, exponent := '0', "-1022";
    var fraction := HexFixed(t % FRACTION, 13);
    if t < FRACTION {
      assert "0x0." + fraction + "p-1022" == "0x" + ['0'] + "." + fraction + "p" + "-1022";
    } else {
      lead, exponent := '1', Signed(t / FRACTION - 1023);
      assert "0x1." == "0x" + ['1'] + ".";
    }
  }

  /** The text reads lead.fraction times two to the exponent, thirteen digits after the point: the time's value. */
  lemma HexMeansValue(t: Time) returns (lead: char, fraction: string, exponent: string)
    requires t > 0
    ensures Hex(t) == "0x" + [lead] + "." + fraction + "p" + exponent && |fraction| == 13
    ensures HexDigit(lead) * 0x10_0000_0000_0000 + HexValue(fraction) == Significand(t)
    ensures SignedValue(exponent) - 4 * |fraction| == Power(t)
  {
    hide Hex, HexFixed, HexValue, Signed, SignedValue, Pow16, Significand, Power;
    TimeParts(t);
    PowThirteen();
    HexFixedBack(t % FRACTION, 13);
    fraction := HexFixed(t % FRACTION, 13);
    MinExponent();
    SignedBack(t / FRACTION - 1023);
    lead, exponent := HexParts(t);
  }

  lemma MinExponent()
    ensures SignedValue("-1022") == -1022
  {
    hide SignedValue, Value, AllDigits;
    SignedBack(-1022);
    assert Decimal(1) == ['1'] && Decimal(10) == Decimal(1) + ['0'];
    assert Decimal(102) == Decimal(10) + ['2'];
    assert Decimal(1022) == Decimal(102) + ['2'] == "1022";
    assert Signed(-1022) == "-" + "1022" == "-1022";
  }

  function PayloadParts(id: string, hex: string): seq<string> {
    ["{", "kind", ":", "agent_runs", ",", "run_id", ":", id, ",", "started_at_hex", ":", hex, ",", "version", ":1}"]
  }

  /** Reads payloads by splitting at the quotes. */
  function ReadPayload(text: string): Option<Fields> {
    var parts := Split(text, '\"');
    if |parts| == 15 then Some(Fields(parts[3], parts[7], parts[11], 1)) else None
  }

  lemma QuotedApart(before: string, s: string, rest: string)
    ensures before + Quoted(s, rest) == before + ['\"'] + (s + ['\"'] + rest)
  {
    assert Quoted(s, rest) == ['\"'] + (s + ['\"'] + rest);
  }

  lemma SplitQuoted(before: string, s: string, rest: string)
    requires '\"' !in before && '\"' !in s
    ensures Split(before + Quoted(s, rest), '\"') == [before] + ([s] + Split(rest, '\"'))
  {
    hide Split, Quoted;
    SplitAtFirst(s, rest, '\"');
    SplitAtFirst(before, s + ['\"'] + rest, '\"');
    QuotedApart(before, s, rest);
  }

  // Two quoted texts in a row, as every member of the object has.
  lemma SplitMember(before: string, key: string, value: string, rest: string)
    requires '\"' !in before && '\"' !in key && '\"' !in value
    ensures Split(before + Quoted(key, ":" + Quoted(value, rest)), '\"') ==
            [before, key, ":", value] + Split(rest, '\"')
  {
    hide Split, Quoted;
    SplitQuoted(":", value, rest);
    SplitQuoted(before, key, ":" + Quoted(value, rest));
  }

  lemma SplitVersion()
    ensures Split("," + Quoted("version", ":1}"), '\"') == [",", "version", ":1}"]
  {
    SplitAtFirst(":1}", "", '\"');
    SplitQuoted(",", "version", ":1}");
    hide Split, Quoted;
  }

  lemma PayloadSplits(id: string, hex: string)
    requires '\"' !in id && '\"' !in hex
    ensures Split(Payload(id, hex), '\"') == PayloadParts(id, hex)
  {
    hide Split, Quoted;
    SplitVersion();
    var version := "," + Quoted("version", ":1}");
    SplitMember(",", "started_at_hex", hex, version);
    var time := "," + Quoted("started_at_hex", ":" + Quoted(hex, version));
    SplitMember(",", "run_id", id, time);
    var run := "," + Quoted("run_id", ":" + Quoted(id, time));
    SplitMember("{", "kind", "agent_runs", run);
  }

  /** The assumption on the parsers can be met. */
  lemma LibraryExists() returns (l: Library)
    ensures l.Ok()
  {
    hide Hex, ReadHex, Payload, ReadPayload, IsRunId, AllPlain;
    l := Library(ReadPayload, ReadHex);
    forall t: Time ensures l.fromHex(Hex(t)) == Some(t) {
      ReadHexBack(t);
    }
    forall id: string, t: Time | IsRunId(id)
      ensures l.parse(Payload(id, Hex(t))) == Some(Fields("agent_runs", id, Hex(t), 1))
    {
      RunIdPlain(id);
      HexPlain(t);
      PayloadReads(id, Hex(t));
    }
  }

  lemma PayloadReads(id: string, hex: string)
    requires AllPlain(id) && AllPlain(hex)
    ensures ReadPayload(Payload(id, hex)) == Some(Fields("agent_runs", id, hex, 1))
  {
    PayloadSplits(id, hex);
    hide Payload, Split;
  }
}
