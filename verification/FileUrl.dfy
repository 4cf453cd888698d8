/** Building file URLs from Windows paths: percent-encoding and the four shapes of path. */
module FileUrl {

  type Unit = u: nat | u < 0x10000

  const SPACE: Unit := 0x20
  const HASH: Unit := 0x23
  const PERCENT: Unit := 0x25
  const SLASH: Unit := 0x2F
  const COLON: Unit := 0x3A
  const QUESTION: Unit := 0x3F
  const BACKSLASH: Unit := 0x5C

  /** `file:` */
  const FILE_SCHEME: seq<Unit> := [0x66, 0x69, 0x6C, 0x65, COLON]
  /** `file://` */
  const FILE_PREFIX: seq<Unit> := FILE_SCHEME + [SLASH, SLASH]

  // ---- Percent-encoding (section 2.1 of RFC 3986) ------------------------------------------------

  function HexDigit(n: nat): Unit
    requires n < 16
  {
    if n < 10 then 0x30 + n else 0x41 + (n - 10)
  }

  predicate IsHex(u: Unit) {
    0x30 <= u <= 0x39 || 0x41 <= u <= 0x46 || 0x61 <= u <= 0x66
  }

  function HexValue(u: Unit): (v: nat)
    requires IsHex(u)
    ensures v < 16
  {
    if u <= 0x39 then u - 0x30 else if u <= 0x46 then u - 0x41 + 10 else u - 0x61 + 10
  }

  predicate Reserved(u: Unit) {
    u == SPACE || u == HASH || u == QUESTION || u == PERCENT || u < 0x20
  }

  function EncodeUnit(u: Unit): seq<Unit> {
    if Reserved(u) then [PERCENT, HexDigit(u / 16), HexDigit(u % 16)] else [u]
  }

  function Encode(path: seq<Unit>): seq<Unit> {
    if path == [] then [] else EncodeUnit(path[0]) + Encode(path[1..])
  }

  predicate EscapeAt(url: seq<Unit>, i: int) {
    0 <= i && i + 2 < |url| && url[i] == PERCENT && IsHex(url[i + 1]) && IsHex(url[i + 2])
  }

  /** Percent-decoding as any reader of the URL performs it. */
  function Decode(url: seq<Unit>): seq<Unit>
    decreases |url|
  {
    if url == [] then []
    else if EscapeAt(url, 0) then [HexValue(url[1]) * 16 + HexValue(url[2])] + Decode(url[3..])
    else [url[0]] + Decode(url[1..])
  }

  method HexEscapeByte(b: nat) returns (out: seq<Unit>)
    requires b < 256
    ensures out == [PERCENT, HexDigit(b / 16), HexDigit(b % 16)]
  {
    out := [];
    out := out + [PERCENT];
    out := out + [HexDigit(b / 16 % 16)];
    out := out + [HexDigit(b % 16)];
  }

  method EncodeFileUrlPath(path: seq<Unit>) returns (out: seq<Unit>)
    ensures out == Encode(path)
  {
    out := [];
    var i := 0;
    while i < |path|
      invariant i <= |path| && out + Encode(path[i..]) == Encode(path)
    {
      var c := path[i];
      var piece: seq<Unit>;
      if c == SPACE {
        piece := [PERCENT, 0x32, 0x30];
      } else if c == HASH {
        piece := [PERCENT, 0x32, 0x33];
      } else if c == QUESTION {
        piece := [PERCENT, 0x33, 0x46];
      } else if c == PERCENT {
        piece := [PERCENT, 0x32, 0x35];
      } else if c < 0x20 {
        piece := HexEscapeByte(c);
      } else {
        piece := [c];
      }
      EncodeNext(path, i, out, piece);
      out := out + piece;
      i := i + 1;
    }
    assert path[i..] == [];
  }

  lemma EncodeNext(path: seq<Unit>, i: nat, out: seq<Unit>, piece: seq<Unit>)
    requires i < |path| && piece == EncodeUnit(path[i])
    ensures out + piece + Encode(path[i + 1..]) == out + Encode(path[i..])
  {
    assert path[i..][1..] == path[i + 1..];
  }

  /** Decoding undoes encoding, for every string. */
  lemma {:induction false} DecodeUndoesEncode(path: seq<Unit>)
    ensures Decode(Encode(path)) == path
  {
    if path != [] {
      var first, rest := EncodeUnit(path[0]), Encode(path[1..]);
      DecodeUndoesEncode(path[1..]);
      if Reserved(path[0]) {
        assert (first + rest)[3..] == rest;
      } else {
        assert (first + rest)[1..] == rest;
      }
    }
  }

  predicate Safe(url: seq<Unit>, i: int)
    requires 0 <= i < |url|
  {
    && url[i] != SPACE && url[i] != HASH && url[i] != QUESTION && url[i] >= 0x20
    && (url[i] == PERCENT ==> EscapeAt(url, i))
  }

  /** Encoded text has no space, '#', '?' or control unit, and every '%' in it starts an escape. */
  lemma {:induction false} EncodeIsSafe(path: seq<Unit>, i: nat)
    requires i < |Encode(path)|
    ensures Safe(Encode(path), i)
    ensures Encode(path)[i] == BACKSLASH ==> BACKSLASH in path
  {
    var first, rest := EncodeUnit(path[0]), Encode(path[1..]);
    if i >= |first| {
      EncodeIsSafe(path[1..], i - |first|);
      assert Encode(path)[i..] == rest[i - |first|..];
      assert Encode(path)[i] == rest[i - |first|];
      if rest[i - |first|] == PERCENT {
        assert Encode(path)[i + 1] == rest[i - |first| + 1] && Encode(path)[i + 2] == rest[i - |first| + 2];
      }
    }
  }

  lemma {:induction false} EncodeConcat(a: seq<Unit>, b: seq<Unit>)
    ensures Encode(a + b) == Encode(a) + Encode(b)
  {
    if a == [] {
      assert a + b == b;
    } else {
      EncodeConcat(a[1..], b);
      assert (a + b)[1..] == a[1..] + b;
    }
  }

  // ---- File URLs (section 2 of RFC 8089) ---------------------------------------------------------

  function Slashed(path: seq<Unit>): (r: seq<Unit>)
    ensures |r| == |path|
  {
    seq(|path|, i requires 0 <= i < |path| => if path[i] == BACKSLASH then SLASH else path[i])
  }

  predicate IsAsciiAlpha(u: Unit) {
    0x61 <= u <= 0x7A || 0x41 <= u <= 0x5A
  }

  predicate HasFilePrefix(path: seq<Unit>) {
    FILE_PREFIX <= path
  }

  predicate IsUnc(path: seq<Unit>) {
    |path| >= 2 && path[0] == SLASH && path[1] == SLASH
  }

  predicate IsDrive(path: seq<Unit>) {
    |path| >= 3 && IsAsciiAlpha(path[0]) && path[1] == COLON && path[2] == SLASH
  }

  predicate IsAbsolute(path: seq<Unit>) {
    path != [] && path[0] == SLASH
  }

  function FileUrlOf(raw: seq<Unit>): seq<Unit> {
    var path := Slashed(raw);
    if HasFilePrefix(path) then path
    else if IsUnc(path) then FILE_SCHEME + Encode(path)
    else if !IsDrive(path) && IsAbsolute(path) then FILE_PREFIX + Encode(path)
    else FILE_PREFIX + [SLASH] + Encode(path)
  }

  method MakeFileUrlFromPath(raw: seq<Unit>) returns (url: seq<Unit>)
    ensures url == FileUrlOf(raw)
  {
    hide Encode;
    var path := raw;
    var i := 0;
    while i < |path|
      invariant i <= |path| == |raw|
      invariant forall j :: 0 <= j < i ==> path[j] == Slashed(raw)[j]
      invariant forall j :: i <= j < |raw| ==> path[j] == raw[j]
    {
      if path[i] == BACKSLASH {
        path := path[i := SLASH];
      }
      i := i + 1;
    }
    assert path == Slashed(raw);
    if FILE_PREFIX <= path {
      return path;
    }
    var encoded := EncodeFileUrlPath(path);
    if |path| >= 2 && path[0] == SLASH && path[1] == SLASH {
      return FILE_SCHEME + encoded;
    }
    if |path| >= 3 && IsAsciiAlpha(path[0]) && path[1] == COLON && path[2] == SLASH {
      return FILE_SCHEME + [SLASH, SLASH, SLASH] + encoded;
    }
    if path != [] && path[0] == SLASH {
      return FILE_SCHEME + [SLASH, SLASH] + encoded;
    }
    return FILE_SCHEME + [SLASH, SLASH, SLASH] + encoded;
  }

  /** What follows `file://` once decoded: the host and path of a UNC name, or an absolute path. */
  function AfterAuthority(path: seq<Unit>): seq<Unit> {
    if IsUnc(path) then path[2..] else if IsAbsolute(path) then path else [SLASH] + path
  }

  /** Every path without the prefix becomes `file://` and the encoding of its canonical form. */
  lemma UrlShape(raw: seq<Unit>)
    requires !HasFilePrefix(Slashed(raw))
    ensures FileUrlOf(raw) == FILE_PREFIX + Encode(AfterAuthority(Slashed(raw)))
  {
    hide Reserved, EncodeUnit;
    var path := Slashed(raw);
    if IsUnc(path) {
      EncodeConcat([SLASH, SLASH], path[2..]);
      assert path == [SLASH, SLASH] + path[2..];
      EncodeSlashes();
    } else if !IsAbsolute(path) {
      EncodeConcat([SLASH], path);
      EncodeSlashes();
    }
  }

  lemma EncodeSlashes()
    ensures Encode([SLASH]) == [SLASH] && Encode([SLASH, SLASH]) == [SLASH, SLASH]
  {
    assert Encode([]) == [];
    assert [SLASH][1..] == [] && [SLASH, SLASH][1..] == [SLASH];
  }

  /** Decoding the URL behind `file://` gives back the canonical path. */
  lemma UrlRecoversPath(raw: seq<Unit>)
    requires !HasFilePrefix(Slashed(raw))
    ensures FILE_PREFIX <= FileUrlOf(raw)
    ensures Decode(FileUrlOf(raw)[7..]) == AfterAuthority(Slashed(raw))
    ensures IsDrive(Slashed(raw)) ==> Decode(FileUrlOf(raw)[8..]) == Slashed(raw)
    ensures IsUnc(Slashed(raw)) ==> Decode(FileUrlOf(raw)[5..]) == Slashed(raw)
  {
    var path := Slashed(raw);
    UrlShape(raw);
    DecodeUndoesEncode(AfterAuthority(path));
    DecodeUndoesEncode(path);
    assert FileUrlOf(raw)[7..] == Encode(AfterAuthority(path));
    if IsDrive(path) {
      assert FileUrlOf(raw)[8..] == Encode(path);
    }
    if IsUnc(path) {
      assert FileUrlOf(raw)[5..] == Encode(path);
    }
  }

  /** Two paths get the same URL exactly when their canonical forms agree; so a relative name, a drive path and
      their spelling with a leading slash are not told apart, and nothing else is confused. */
  lemma SameUrlExactly(a: seq<Unit>, b: seq<Unit>)
    requires !HasFilePrefix(Slashed(a)) && !HasFilePrefix(Slashed(b))
    ensures FileUrlOf(a) == FileUrlOf(b) <==> AfterAuthority(Slashed(a)) == AfterAuthority(Slashed(b))
  {
    UrlShape(a);
    UrlShape(b);
    UrlRecoversPath(a);
    UrlRecoversPath(b);
  }

  lemma NoBackslash(raw: seq<Unit>)
    ensures BACKSLASH !in FileUrlOf(raw)
  {
    var path := Slashed(raw);
    assert BACKSLASH !in path;
    forall i | 0 <= i < |Encode(path)| ensures Encode(path)[i] != BACKSLASH {
      EncodeIsSafe(path, i);
    }
  }

  /** Making a URL of a URL changes nothing, on every input. */
  lemma FileUrlIdempotent(raw: seq<Unit>)
    ensures FileUrlOf(FileUrlOf(raw)) == FileUrlOf(raw)
  {
    NoBackslash(raw);
    assert Slashed(FileUrlOf(raw)) == FileUrlOf(raw);
    if !HasFilePrefix(Slashed(raw)) { UrlShape(raw); }
  }

  // ---- In code units ---------------------------------------------------------------------------

  const UPPER_HEX: seq<Unit> :=
    [0x30, 0x31, 0x32, 0x33, 0x34, 0x35, 0x36, 0x37, 0x38, 0x39, 0x41, 0x42, 0x43, 0x44, 0x45, 0x46]

  /** Only controls, space, '#', '%' and '?' are escaped, with two upper-case digits; every other unit stays, the drive
      colon and the separators among them. */
  lemma EncodesUnitwise(u: Unit, rest: seq<Unit>)
    ensures Encode([u] + rest) ==
            (if u < 0x20 || u == 0x20 || u == 0x23 || u == 0x25 || u == 0x3F
             then [0x25, UPPER_HEX[u / 16], UPPER_HEX[u % 16]] else [u]) + Encode(rest)
  {
    assert ([u] + rest)[1..] == rest;
  }

  /** Which prefix a path gets: none when it is a file URL already, `file:` before two slashes, `file://` before one,
      and `file:///` before anything else, a drive or a relative name. */
  lemma UrlCases(raw: seq<Unit>)
    ensures var path, url := Slashed(raw), FileUrlOf(raw);
            && |path| == |raw|
            && (forall i :: 0 <= i < |raw| ==> path[i] == if raw[i] == 0x5C then 0x2F else raw[i])
            && var file: seq<Unit> := [0x66, 0x69, 0x6C, 0x65, 0x3A];
               if file + [0x2F, 0x2F] <= path then url == path
               else if |path| >= 2 && path[0] == path[1] == 0x2F then url == file + Encode(path)
               else if |path| >= 1 && path[0] == 0x2F then url == file + [0x2F, 0x2F] + Encode(path)
               else url == file + [0x2F, 0x2F, 0x2F] + Encode(path)
  {}
}
