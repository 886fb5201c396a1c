/** The no-JavaScript waiting page's `next` parameter: chosen once, carried through
    a redirect percent-encoded, and decoded again on arrival. */
module NextParam {
  import opened Common
  import opened Utf8

  /** An ASCII literal's bytes. */
  function Ascii(s: string): seq<byte>
    requires forall i :: 0 <= i < |s| ==> s[i] as int < 0x80
  {
    seq(|s|, i requires 0 <= i < |s| => s[i] as int)
  }

  const PERCENT: byte := '%' as int
  const PLUS: byte := '+' as int
  const AMPERSAND: byte := '&' as int
  const QUESTION: byte := '?' as int

  // ---- The encoder --------------------------------------------------------------------

  predicate IsDigit(b: byte) { '0' as int <= b <= '9' as int }

  predicate IsUpper(b: byte) { 'A' as int <= b <= 'Z' as int }

  predicate IsLower(b: byte) { 'a' as int <= b <= 'z' as int }

  /** The unreserved characters of section 2.3 of RFC 3986. */
  predicate Unreserved(b: byte)
  {
    IsDigit(b) || IsUpper(b) || IsLower(b)
    || b == '-' as int || b == '_' as int || b == '.' as int || b == '~' as int
  }

  function UpperHex(d: nat): byte
    requires d < 16
  {
    if d < 10 then '0' as int + d else 'A' as int + (d - 10)
  }

  function EncodeByte(b: byte): seq<byte>
  {
    if Unreserved(b) then [b] else [PERCENT, UpperHex(b / 16), UpperHex(b % 16)]
  }

  function Encoded(s: seq<byte>): seq<byte>
  {
    if s == [] then [] else EncodeByte(s[0]) + Encoded(s[1..])
  }

  lemma EncodedStep(out: seq<byte>, bytes: seq<byte>, i: nat)
    requires i < |bytes|
    ensures out + Encoded(bytes[i..]) == out + EncodeByte(bytes[i]) + Encoded(bytes[i + 1..])
  {
    assert bytes[i..][1..] == bytes[i + 1..];
    assert out + (EncodeByte(bytes[i]) + Encoded(bytes[i + 1..])) == out + EncodeByte(bytes[i]) + Encoded(bytes[i + 1..]);
  }

  method EncodeComponent(s: string) returns (out: seq<byte>)
    ensures out == Encoded(Encode(s))
  {
    hide Encoded, Encode;
    var bytes := Encode(s);
    out := [];
    for i := 0 to |bytes|
      invariant out + Encoded(bytes[i..]) == Encoded(bytes)
    {
      EncodedStep(out, bytes, i);
      if Unreserved(bytes[i]) {
        out := out + [bytes[i]];
      } else {
        out := out + [PERCENT, UpperHex(bytes[i] / 16), UpperHex(bytes[i] % 16)];
      }
    }
    assert bytes[|bytes|..] == [] && Encoded([]) == [] by { NothingEncoded(); }
  }

  lemma NothingEncoded()
    ensures Encoded([]) == []
  {
  }

  // ---- The decoder --------------------------------------------------------------------

  function HexValue(b: byte): Option<nat>
  {
    if IsDigit(b) then Some(b - '0' as int)
    else if 'A' as int <= b <= 'F' as int then Some(b - 'A' as int + 10)
    else if 'a' as int <= b <= 'f' as int then Some(b - 'a' as int + 10)
    else None
  }

  /** Two characters as a number in base sixteen; a plus sign may lead. */
  function HexPair(hi: byte, lo: byte): Option<byte>
  {
    match HexValue(lo)
    case None => None
    case Some(l) =>
      if hi == PLUS then Some(l)
      else
        match HexValue(hi)
        case None => None
        case Some(h) => Some(16 * h + l)
  }

  function Ahead(out: seq<byte>, rest: Option<seq<byte>>): Option<seq<byte>>
  {
    if rest.None? then None else Some(out + rest.value)
  }

  /** The bytes some percent-encoded text stands for. */
  function Decoded(s: seq<byte>): Option<seq<byte>>
  {
    if s == [] then Some([])
    else if s[0] == PERCENT then
      if |s| < 3 then None
      else
        match HexPair(s[1], s[2])
        case None => None
        case Some(b) => Ahead([b], Decoded(s[3..]))
    else Ahead([if s[0] == PLUS then ' ' as int else s[0]], Decoded(s[1..]))
  }

  function PercentDecoded(s: seq<byte>): Option<string>
  {
    match Decoded(s)
    case None => None
    case Some(bytes) => Decode(bytes)
  }

  method PercentDecode(s: seq<byte>) returns (r: Option<string>)
    ensures r == PercentDecoded(s)
  {
    var out: seq<byte> := [];
    var i := 0;
    AheadNone(Decoded(s));
    while i < |s|
      invariant 0 <= i <= |s| && Decoded(s) == Ahead(out, Decoded(s[i..]))
    {
      if s[i] == PERCENT {
        if i + 3 > |s| {
          return None;
        }
        var b := HexPair(s[i + 1], s[i + 2]);
        if b.None? {
          return None;
        }
        assert s[i..][3..] == s[i + 3..];
        AheadOne(out, b.value, Decoded(s[i + 3..]));
        out := out + [b.value];
        i := i + 3;
      } else {
        var b := if s[i] == PLUS then ' ' as int else s[i];
        assert s[i..][1..] == s[i + 1..];
        AheadOne(out, b, Decoded(s[i + 1..]));
        out := out + [b];
        i := i + 1;
      }
    }
    assert s[|s|..] == [] && out + [] == out;
    r := Decode(out);
  }

  lemma AheadNone(r: Option<seq<byte>>)
    ensures Ahead([], r) == r
  {
    if r.Some? {
      assert [] + r.value == r.value;
    }
  }

  lemma AheadOne(out: seq<byte>, b: byte, r: Option<seq<byte>>)
    ensures Ahead(out, Ahead([b], r)) == Ahead(out + [b], r)
  {
    if r.Some? {
      assert out + ([b] + r.value) == out + [b] + r.value;
    }
  }

  // ---- The round trip -----------------------------------------------------------------

  lemma ByteRoundTrip(b: byte, rest: seq<byte>)
    ensures Decoded(EncodeByte(b) + rest) == Ahead([b], Decoded(rest))
  {
    var s := EncodeByte(b) + rest;
    if Unreserved(b) {
      assert s[1..] == rest;
    } else {
      assert s[3..] == rest;
      assert HexPair(UpperHex(b / 16), UpperHex(b % 16)) == Some(b);
    }
  }

  lemma {:induction false} BytesRoundTrip(s: seq<byte>)
    ensures Decoded(Encoded(s)) == Some(s)
  {
    if s != [] {
      BytesRoundTrip(s[1..]);
      ByteRoundTrip(s[0], Encoded(s[1..]));
      assert [s[0]] + s[1..] == s;
    }
  }

  /** Decoding undoes encoding, for every string. */
  lemma EncodedIsDecoded(s: string)
    ensures PercentDecoded(Encoded(Encode(s))) == Some(s)
  {
    BytesRoundTrip(Encode(s));
    RoundTrip(s);
  }

  /** What the encoder writes has no character with a meaning in a query string. */
  lemma {:induction false} EncodedIsInert(s: seq<byte>, b: byte)
    requires b in Encoded(s)
    ensures b == PERCENT || Unreserved(b)
  {
    if b !in EncodeByte(s[0]) {
      EncodedIsInert(s[1..], b);
    }
  }

  // ---- Finding and vetting the path ----------------------------------------------------

  function TrimQuestions(query: seq<byte>): seq<byte>
  {
    if query != [] && query[0] == QUESTION then TrimQuestions(query[1..]) else query
  }

  function PairEnd(s: seq<byte>): (k: nat)
    ensures k <= |s| && AMPERSAND !in s[..k] && (k < |s| ==> s[k] == AMPERSAND)
  {
    if s == [] || s[0] == AMPERSAND then 0 else 1 + PairEnd(s[1..])
  }

  const NEXT: seq<byte> := Ascii("next=")

  /** The value of the first pair named `next`. */
  function FindNext(s: seq<byte>): Option<seq<byte>>
    decreases |s|
  {
    var k := PairEnd(s);
    if NEXT <= s[..k] then Some(s[..k][|NEXT|..])
    else if k == |s| then None
    else FindNext(s[k + 1..])
  }

  function NextOf(query: seq<byte>): Option<seq<byte>> { FindNext(TrimQuestions(query)) }

  /** The Unicode control characters. */
  predicate IsControl(c: char) { c as int < 0x20 || 0x7F <= c as int < 0xA0 }

  /** A path a visitor may be sent to: on this site, and not read by a browser as
      the start of another. */
  predicate SamePath(path: string)
  {
    && |path| >= 1 && path[0] == '/'
    && (|path| >= 2 ==> path[1] != '/' && path[1] != '\\')
    && forall i :: 0 <= i < |path| ==> !IsControl(path[i])
  }

  function SafeNext(raw: Option<seq<byte>>): (path: string)
    ensures SamePath(path)
  {
    if raw.None? then "/"
    else
      match PercentDecoded(raw.value)
      case None => "/"
      case Some(decoded) => if SamePath(decoded) then decoded else "/"
  }

  /** Everything after the first `?`, if there is one. */
  function QueryOf(url: seq<byte>): Option<seq<byte>>
  {
    if url == [] then None else if url[0] == QUESTION then Some(url[1..]) else QueryOf(url[1..])
  }

  function NextFromReferer(referer: Option<seq<byte>>): string
  {
    if referer.None? then SafeNext(None)
    else
      match QueryOf(referer.value)
      case None => SafeNext(None)
      case Some(query) => SafeNext(NextOf(query))
  }

  /** The `next` a join settles on: the request's own query, or its referrer's. */
  function Chosen(query: Option<seq<byte>>, referer: Option<seq<byte>>): string
  {
    if query.Some? && NextOf(query.value).Some? then SafeNext(NextOf(query.value)) else NextFromReferer(referer)
  }

  const WAIT_PATH: seq<byte> := Ascii("/v1/wait")

  /** Where a join redirects to. */
  function Location(next: string): seq<byte>
  {
    WAIT_PATH + [QUESTION] + NEXT + Encoded(Encode(next))
  }

  lemma {:induction false} QueryAfter(path: seq<byte>, query: seq<byte>)
    requires QUESTION !in path
    ensures QueryOf(path + [QUESTION] + query) == Some(query)
  {
    var url := path + [QUESTION] + query;
    if path == [] {
      assert url[1..] == query;
    } else {
      QueryAfter(path[1..], query);
      assert url[1..] == path[1..] + [QUESTION] + query;
      assert url[0] == path[0];
    }
  }

  lemma {:induction false} NoPairEnd(s: seq<byte>)
    requires AMPERSAND !in s
    ensures PairEnd(s) == |s|
  {
    if s != [] {
      NoPairEnd(s[1..]);
    }
  }

  lemma OnlyPair(value: seq<byte>)
    requires AMPERSAND !in value
    ensures NextOf(NEXT + value) == Some(value)
  {
    var query := NEXT + value;
    assert query[0] == 'n' as int;
    assert AMPERSAND !in query;
    NoPairEnd(query);
    assert query[..|query|] == query && query[|NEXT|..] == value;
  }

  /** The waiting page reads back from its own URL exactly the paths the vetting
      allows: vetting is a fixed point through the redirect, and nothing else is. */
  lemma FixedThroughRedirect(path: string)
    ensures var query := QueryOf(Location(path));
            query.Some? && (SafeNext(NextOf(query.value)) == path <==> SamePath(path))
  {
    hide Encoded, Decoded;
    var value := Encoded(Encode(path));
    forall b | b in value
      ensures b != AMPERSAND
    {
      EncodedIsInert(Encode(path), b);
    }
    assert QUESTION !in WAIT_PATH;
    assert Location(path) == WAIT_PATH + [QUESTION] + (NEXT + value);
    QueryAfter(WAIT_PATH, NEXT + value);
    OnlyPair(value);
    EncodedIsDecoded(path);
  }

  /** So the path a join chose, from wherever, is the one the waiting page uses. */
  lemma ChosenSurvivesRedirect(query: Option<seq<byte>>, referer: Option<seq<byte>>)
    ensures var path := Chosen(query, referer);
            QueryOf(Location(path)).Some? && SafeNext(NextOf(QueryOf(Location(path)).value)) == path
  {
    FixedThroughRedirect(Chosen(query, referer));
  }

  // ---- What encoded text means ----------------------------------------------------------

  const LOWER_HEX: string := "0123456789abcdef"
  const UPPER_HEX: string := "0123456789ABCDEF"

  /** One hexadecimal digit, in either case. */
  predicate IsHex(b: byte, d: nat)
  {
    d < 16 && (b == LOWER_HEX[d] as int || b == UPPER_HEX[d] as int)
  }

  lemma HexDigitExactly(b: byte)
    ensures forall d: nat :: HexValue(b) == Some(d) <==> IsHex(b, d)
  {
    forall d: nat
      ensures HexValue(b) == Some(d) <==> IsHex(b, d)
    {
      if d < 16 {
        HexDigitIs(b, d);
      }
    }
  }

  lemma HexDigitIs(b: byte, d: nat)
    requires d < 16
    ensures HexValue(b) == Some(d) <==> b == LOWER_HEX[d] as int || b == UPPER_HEX[d] as int
  {
  }

  /** Two digits are a byte, in either case; and so is a plus sign before one digit. */
  lemma HexPairExactly(hi: byte, lo: byte, b: byte)
    ensures HexPair(hi, lo) == Some(b) <==>
              if hi == '+' as int then IsHex(lo, b) else IsHex(hi, b / 16) && IsHex(lo, b % 16)
  {
    hide HexValue, IsHex;
    HexDigitExactly(hi);
    HexDigitExactly(lo);
    HexBelow(hi);
    HexBelow(lo);
    assert b == 16 * (b / 16) + b % 16;
  }

  lemma HexBelow(b: byte)
    ensures HexValue(b).Some? ==> HexValue(b).value < 16 && b != '+' as int
  {
  }

  /** A piece of encoded text: a byte that stands for itself, a plus sign for a space,
      or two digits behind a percent sign. */
  datatype Piece = Itself(b: byte) | Space | Coded(hi: byte, lo: byte)

  predicate Proper(piece: Piece)
  {
    match piece
    case Itself(b) => b != '%' as int && b != '+' as int
    case Space => true
    case Coded(hi, lo) => HexPair(hi, lo).Some?
  }

  function Spelled(pieces: seq<Piece>): seq<byte>
  {
    if pieces == [] then []
    else (match pieces[0] { case Itself(b) => [b] case Space => ['+' as int] case Coded(hi, lo) => ['%' as int, hi, lo] })
         + Spelled(pieces[1..])
  }

  function Meant(pieces: seq<Piece>): seq<byte>
    requires forall i :: 0 <= i < |pieces| ==> Proper(pieces[i])
  {
    if pieces == [] then []
    else
      assert Proper(pieces[0]);
      (match pieces[0] { case Itself(b) => [b] case Space => [' ' as int] case Coded(hi, lo) => [HexPair(hi, lo).value] })
         + Meant(pieces[1..])
  }

  /** The text is these pieces, and they stand for these bytes. */
  ghost predicate Reads(pieces: seq<Piece>, s: seq<byte>, out: seq<byte>)
  {
    (forall i :: 0 <= i < |pieces| ==> Proper(pieces[i])) && Spelled(pieces) == s && Meant(pieces) == out
  }

  lemma {:induction false} PiecesDecode(pieces: seq<Piece>, s: seq<byte>, out: seq<byte>)
    requires Reads(pieces, s, out)
    ensures Decoded(s) == Some(out)
  {
    hide HexPair;
    if pieces != [] {
      var rest, more := Spelled(pieces[1..]), Meant(pieces[1..]);
      PiecesDecode(pieces[1..], rest, more);
      match pieces[0]
      case Itself(b) => assert s == [b] + rest && s[1..] == rest;
      case Space => assert s == ['+' as int] + rest && s[1..] == rest;
      case Coded(hi, lo) => assert s == ['%' as int, hi, lo] + rest && s[3..] == rest;
    }
  }

  lemma {:induction false} DecodesByPieces(s: seq<byte>) returns (pieces: seq<Piece>)
    requires Decoded(s).Some?
    ensures Reads(pieces, s, Decoded(s).value)
    decreases |s|
  {
    hide HexPair;
    if s == [] {
      pieces := [];
    } else if s[0] == PERCENT {
      var more := DecodesByPieces(s[3..]);
      pieces := [Coded(s[1], s[2])] + more;
      assert pieces[1..] == more && s == [s[0], s[1], s[2]] + s[3..];
    } else {
      var more := DecodesByPieces(s[1..]);
      pieces := [if s[0] == PLUS then Space else Itself(s[0])] + more;
      assert pieces[1..] == more && s == [s[0]] + s[1..];
    }
  }

  /** Text decodes to some bytes exactly when it is made of pieces that stand for
      them; anything else is refused. */
  lemma DecodesExactly(s: seq<byte>, out: seq<byte>)
    ensures Decoded(s) == Some(out) <==> exists pieces :: Reads(pieces, s, out)
  {
    hide Reads;
    if Decoded(s) == Some(out) {
      var pieces := DecodesByPieces(s);
    }
    if pieces :| Reads(pieces, s, out) {
      PiecesDecode(pieces, s, out);
    }
  }

  const UPPER_CASE: string := "ABCDEFGHIJKLMNOPQRSTUVWXYZ"
  const LOWER_CASE: string := "abcdefghijklmnopqrstuvwxyz"
  const DECIMAL: string := "0123456789"

  /** The bytes that are written as they are. */
  predicate Kept(b: byte)
  {
    var c := b as char; c in UPPER_CASE || c in LOWER_CASE || c in DECIMAL || c in "-_.~"
  }

  lemma UpperCase(k: nat)
    requires k < 26
    ensures UPPER_CASE[k] as int == 'A' as int + k && LOWER_CASE[k] as int == 'a' as int + k
  {
  }

  lemma Decimal(k: nat)
    requires k < 10
    ensures DECIMAL[k] as int == '0' as int + k
  {
  }

  lemma KeptExactly(b: byte)
    ensures Unreserved(b) <==> Kept(b)
  {
    if IsUpper(b) {
      UpperCase(b - 'A' as int);
      assert UPPER_CASE[b - 'A' as int] == b as char;
    } else if IsLower(b) {
      UpperCase(b - 'a' as int);
      assert LOWER_CASE[b - 'a' as int] == b as char;
    } else if IsDigit(b) {
      Decimal(b - '0' as int);
      assert DECIMAL[b - '0' as int] == b as char;
    } else {
      NotKept(b);
    }
  }

  lemma NotKept(b: byte)
    requires !IsUpper(b) && !IsLower(b) && !IsDigit(b)
    ensures b as char !in UPPER_CASE && b as char !in LOWER_CASE && b as char !in DECIMAL
    ensures b as char in "-_.~" <==> b == '-' as int || b == '_' as int || b == '.' as int || b == '~' as int
  {
    forall k: nat | k < 26
      ensures UPPER_CASE[k] != b as char && LOWER_CASE[k] != b as char
    {
      UpperCase(k);
    }
    forall k: nat | k < 10
      ensures DECIMAL[k] != b as char
    {
      Decimal(k);
    }
    var marks := "-_.~";
    assert marks[0] == '-' && marks[1] == '_' && marks[2] == '.' && marks[3] == '~';
  }

  /** What is written for each byte, in order: itself if it is unreserved, and
      otherwise a percent sign and its two upper-case digits. */
  lemma EncodesExactly(s: seq<byte>, more: seq<byte>, b: byte)
    ensures Encoded(s + more) == Encoded(s) + Encoded(more)
    ensures Encoded([b]) == if Kept(b) then [b]
                            else ['%' as int, UPPER_HEX[b / 16] as int, UPPER_HEX[b % 16] as int]
  {
    hide Unreserved, Kept;
    EncodedAppend(s, more);
    KeptExactly(b);
    UpperDigit(b / 16);
    UpperDigit(b % 16);
    assert [b][1..] == [] && EncodeByte(b) + [] == EncodeByte(b);
  }

  lemma UpperDigit(d: nat)
    requires d < 16
    ensures UpperHex(d) == UPPER_HEX[d] as int
  {
  }

  lemma {:induction false} EncodedAppend(s: seq<byte>, more: seq<byte>)
    ensures Encoded(s + more) == Encoded(s) + Encoded(more)
  {
    hide EncodeByte;
    if s == [] {
      assert s + more == more;
    } else {
      EncodedAppend(s[1..], more);
      assert (s + more)[1..] == s[1..] + more;
      assert EncodeByte(s[0]) + (Encoded(s[1..]) + Encoded(more)) == EncodeByte(s[0]) + Encoded(s[1..]) + Encoded(more);
    }
  }

  // ---- Which path is chosen -----------------------------------------------------------------

  /** A pair named `next` starts at `p`. */
  predicate StartsAt(s: seq<byte>, p: nat)
  {
    p + 5 <= |s| && (p == 0 || s[p - 1] == '&' as int) && s[p..p + 5] == Ascii("next=")
  }

  /** The value found is that of the first pair named `next`, up to the next
      ampersand; nothing is found exactly when there is no such pair. */
  lemma {:induction false} FindsFirst(s: seq<byte>) returns (p: nat, q: nat)
    ensures FindNext(s).None? <==> forall p: nat :: !StartsAt(s, p)
    ensures FindNext(s).Some? ==> FoundAt(s, p, q) && FindNext(s) == Some(s[p + 5..q])
    decreases |s|
  {
    hide PairEnd, StartsAt, FoundAt;
    var k := PairEnd(s);
    FirstPair(s, k);
    p, q := 0, k;
    if NEXT <= s[..k] {
      FoundFirst(s, k);
      assert StartsAt(s, 0);
    } else if k < |s| {
      var p', q' := FindsFirst(s[k + 1..]);
      if FindNext(s).Some? {
        p, q := k + 1 + p', k + 1 + q';
        FoundLater(s, k, p', q');
      } else {
        forall before: nat
          ensures !StartsAt(s, before)
        {
          LaterPair(s, k, before);
        }
      }
    } else {
      NoneBeyond(s);
    }
  }

  /** The first pair named `next` starts at `p`, and its value ends at `q`. */
  ghost predicate FoundAt(s: seq<byte>, p: nat, q: nat)
  {
    && StartsAt(s, p) && (forall before: nat :: before < p ==> !StartsAt(s, before))
    && p + 5 <= q <= |s| && '&' as int !in s[p + 5..q] && (q < |s| ==> s[q] == '&' as int)
  }

  lemma FoundFirst(s: seq<byte>, k: nat)
    requires k <= |s| && AMPERSAND !in s[..k] && (k < |s| ==> s[k] == AMPERSAND) && NEXT <= s[..k]
    ensures FoundAt(s, 0, k) && s[..k][5..] == s[5..k] && |NEXT| == 5
  {
    FirstPair(s, k);
    assert s[..k][5..] == s[5..k];
  }

  lemma NoneBeyond(s: seq<byte>)
    requires forall p: nat :: p <= |s| ==> !StartsAt(s, p)
    ensures forall p: nat :: !StartsAt(s, p)
  {
  }

  lemma FoundLater(s: seq<byte>, k: nat, p: nat, q: nat)
    requires k < |s| && s[k] == AMPERSAND && forall p: nat :: 0 <= p <= k ==> !StartsAt(s, p)
    requires FoundAt(s[k + 1..], p, q)
    ensures FoundAt(s, k + 1 + p, k + 1 + q) && StartsAt(s, k + 1 + p) && s[k + 1..][p + 5..q] == s[k + 1 + p + 5..k + 1 + q]
  {
    hide StartsAt;
    LaterPair(s, k, k + 1 + p);
    forall before: nat | before < k + 1 + p
      ensures !StartsAt(s, before)
    {
      LaterPair(s, k, before);
    }
    assert s[k + 1..][p + 5..q] == s[k + 1 + p + 5..k + 1 + q];
  }

  /** Where the first pair ends, and whether it is named `next`. */
  lemma FirstPair(s: seq<byte>, k: nat)
    requires k <= |s| && AMPERSAND !in s[..k] && (k < |s| ==> s[k] == AMPERSAND)
    ensures NEXT <= s[..k] ==> StartsAt(s, 0) && 5 <= k && AMPERSAND !in s[5..k]
    ensures StartsAt(s, 0) ==> NEXT <= s[..k]
    ensures forall p: nat :: 0 < p <= k ==> !StartsAt(s, p)
  {
    assert |NEXT| == 5;
    if NEXT <= s[..k] {
      assert s[0..5] == s[..k][..5];
      forall i | 5 <= i < k
        ensures s[i] != AMPERSAND
      {
        assert s[i] == s[..k][i];
      }
    }
    if StartsAt(s, 0) {
      NoAmpersandInName(s, k);
    }
    forall p: nat | 0 < p <= k
      ensures !StartsAt(s, p)
    {
      assert s[p - 1] == s[..k][p - 1];
    }
  }

  lemma NoAmpersandInName(s: seq<byte>, k: nat)
    requires k <= |s| && (k < |s| ==> s[k] == AMPERSAND) && StartsAt(s, 0)
    ensures NEXT <= s[..k]
  {
    forall i | 0 <= i < 5
      ensures s[i] == NEXT[i] && s[i] != AMPERSAND
    {
      assert s[i] == s[0..5][i];
    }
  }

  lemma LaterPair(s: seq<byte>, k: nat, p: nat)
    requires k < |s| && s[k] == AMPERSAND && forall p: nat :: 0 <= p <= k ==> !StartsAt(s, p)
    ensures StartsAt(s, p) <==> p > k && StartsAt(s[k + 1..], p - k - 1)
  {
    if p > k {
      var rest := s[k + 1..];
      if p + 5 <= |s| {
        assert rest[p - k - 1..p - k + 4] == s[p..p + 5];
      }
      if p > k + 1 && p <= |s| {
        assert rest[p - k - 2] == s[p - 1];
      }
    }
  }

  /** Question marks that lead a query are not part of it. */
  lemma {:induction false} LeadingQuestions(query: seq<byte>)
    ensures NextOf(['?' as int] + query) == NextOf(query)
    ensures query == [] || query[0] != '?' as int ==> NextOf(query) == FindNext(query)
  {
    assert (['?' as int] + query)[1..] == query;
  }

  lemma {:induction false} QueryExactly(url: seq<byte>, path: seq<byte>, query: seq<byte>)
    ensures '?' as int !in path && url == path + ['?' as int] + query ==> QueryOf(url) == Some(query)
    ensures QueryOf(url).None? <==> '?' as int !in url
  {
    if '?' as int !in path && url == path + ['?' as int] + query {
      QueryAfter(path, query);
    }
    QueryNone(url);
  }

  lemma {:induction false} QueryNone(url: seq<byte>)
    ensures QueryOf(url).None? <==> '?' as int !in url
  {
    if url != [] {
      QueryNone(url[1..]);
      assert url == [url[0]] + url[1..];
    }
  }

  /** Only a path of this site is ever used as it came: one slash first, no second
      slash or backslash behind it, and no control character. All else is the root. */
  lemma VettedExactly(raw: seq<byte>)
    ensures SafeNext(None) == "/"
    ensures SafeNext(Some(raw)) ==
            match PercentDecoded(raw) {
              case None => "/"
              case Some(path) =>
                if && "/" <= path && !("//" <= path) && !("/\\" <= path)
                   && forall i :: 0 <= i < |path| ==> 32 <= path[i] as int < 127 || 160 <= path[i] as int
                then path else "/"
            }
  {
  }

  /** A `next` in the request's own query settles it, even one that is refused; only
      without one is the referrer's query looked at. */
  lemma ChosenExactly(query: Option<seq<byte>>, path: seq<byte>, rest: seq<byte>)
    requires '?' as int !in path
    ensures forall referer, raw :: query.Some? && NextOf(query.value) == Some(raw) ==>
              Chosen(query, referer) == SafeNext(Some(raw))
    ensures query.None? || NextOf(query.value).None? ==>
              && Chosen(query, None) == Chosen(query, Some(path)) == "/"
              && Chosen(query, Some(path + ['?' as int] + rest)) == SafeNext(NextOf(rest))
  {
    hide NextOf;
    QueryExactly(path + ['?' as int] + rest, path, rest);
    QueryNone(path);
  }

  /** The waiting page's address. */
  lemma LocationExactly(next: string)
    ensures Location(next) == Ascii("/v1/wait?next=") + Encoded(Encode(next))
  {
    assert WAIT_PATH + [QUESTION] + NEXT == Ascii("/v1/wait?next=");
  }
}
