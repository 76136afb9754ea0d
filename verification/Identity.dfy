/**
  The v2 embedding identity codec. A byte is a `char` below 256; a source string
  is a sequence of bytes that is valid UTF-8.
 */
module Identity {
  import opened Wrappers
  import opened Unicode

  datatype Runtime =
    | LocalQwen3CandleCuda | LocalFastembedOnnxCpu | LocalFastembedOnnxMigraphx
    | LocalFastembedOnnxDirectml | OpenRouter

  datatype Identity = Identity(runtime: Runtime, modelId: string, dim: nat, maxLen: nat, query: string)

  datatype Error =
    | BadPrefix | Malformed | Duplicate | Missing | BadVersion | BadRuntime | BadEscape | BadUtf8 | BadNumber

  const USIZE_LIMIT: nat := 0x1_0000_0000_0000_0000

  predicate IsBytes(s: string) { forall i :: 0 <= i < |s| ==> s[i] as int < 256 }

  /** What the source's types guarantee of an identity. */
  predicate Representable(x: Identity)
  {
    IsBytes(x.modelId) && Utf8(x.modelId) && IsBytes(x.query) && Utf8(x.query)
    && x.dim < USIZE_LIMIT && x.maxLen < USIZE_LIMIT
  }

  // --------------------------------------------------------- percent encoding

  predicate Safe(c: char)
  {
    'A' <= c <= 'Z' || 'a' <= c <= 'z' || '0' <= c <= '9' || c == '.' || c == '_' || c == '-'
  }

  function HexDigit(nibble: nat): char
    requires nibble < 16
  {
    if nibble < 10 then '0' + nibble as char else 'A' + (nibble - 10) as char
  }

  function FromHex(c: char): Option<nat>
  {
    if '0' <= c <= '9' then Some(c as nat - '0' as nat)
    else if 'a' <= c <= 'f' then Some(c as nat - 'a' as nat + 10)
    else if 'A' <= c <= 'F' then Some(c as nat - 'A' as nat + 10)
    else None
  }

  function EncodeByte(c: char): string
    requires c as int < 256
  {
    if Safe(c) then [c] else ['%', HexDigit(c as nat / 16), HexDigit(c as nat % 16)]
  }

  function PercentEncode(s: string): string
    requires IsBytes(s)
  {
    if s == [] then [] else EncodeByte(s[0]) + PercentEncode(s[1..])
  }

  /** The bytes behind the escapes, if every escape is whole and hexadecimal. */
  function Unescape(s: string): Option<string>
  {
    if s == [] then Some([])
    else if s[0] != '%' then
      var rest := Unescape(s[1..]);
      if rest.None? then None else Some([s[0]] + rest.value)
    else if |s| < 3 || FromHex(s[1]).None? || FromHex(s[2]).None? then None
    else
      var rest := Unescape(s[3..]);
      if rest.None? then None else Some([(FromHex(s[1]).value * 16 + FromHex(s[2]).value) as char] + rest.value)
  }

  function PercentDecode(s: string): Result<string, Error>
  {
    var bytes := Unescape(s);
    if bytes.None? then Err(BadEscape) else if Utf8(bytes.value) then Ok(bytes.value) else Err(BadUtf8)
  }

  lemma EncodeStep(s: string, i: nat)
    requires IsBytes(s) && i < |s|
    ensures PercentEncode(s[i..]) == EncodeByte(s[i]) + PercentEncode(s[i + 1..])
  {
    assert s[i..][0] == s[i] && s[i..][1..] == s[i + 1..];
  }

  lemma Associate(a: string, b: string, c: string)
    ensures a + (b + c) == a + b + c
  {}

  method RunPercentEncode(s: string) returns (out: string)
    requires IsBytes(s)
    ensures out == PercentEncode(s)
  {
    out := [];
    assert PercentEncode(s[|s|..]) == [];
    assert s[0..] == s;
    hide PercentEncode;
    for i := 0 to |s|
      invariant out + PercentEncode(s[i..]) == PercentEncode(s)
    {
      EncodeStep(s, i);
      var piece: string;
      if Safe(s[i]) {
        piece := [s[i]];
      } else {
        piece := ['%', HexDigit(s[i] as nat / 16), HexDigit(s[i] as nat % 16)];
      }
      Associate(out, piece, PercentEncode(s[i + 1..]));
      out := out + piece;
    }
  }

  function Prepend(out: string, rest: Option<string>): Option<string>
  {
    if rest.None? then None else Some(out + rest.value)
  }

  lemma UnescapeStep(s: string, i: nat)
    requires i < |s|
    ensures s[i] != '%' ==> Unescape(s[i..]) == Prepend([s[i]], Unescape(s[i + 1..]))
    ensures s[i] == '%' && (i + 2 >= |s| || FromHex(s[i + 1]).None? || FromHex(s[i + 2]).None?) ==>
              Unescape(s[i..]) == None
    ensures s[i] == '%' && i + 2 < |s| && FromHex(s[i + 1]).Some? && FromHex(s[i + 2]).Some? ==>
              Unescape(s[i..]) ==
              Prepend([(FromHex(s[i + 1]).value * 16 + FromHex(s[i + 2]).value) as char], Unescape(s[i + 3..]))
  {
    var t := s[i..];
    assert t[1..] == s[i + 1..];
    if i + 2 < |s| {
      assert t[3..] == s[i + 3..];
    }
  }

  lemma PrependTwice(out: string, head: string, rest: Option<string>)
    ensures Prepend(out, Prepend(head, rest)) == Prepend(out + head, rest)
  {
    if rest.Some? {
      Associate(out, head, rest.value);
    }
  }

  lemma PrependNothing(rest: Option<string>)
    ensures Prepend([], rest) == rest
    ensures rest.Some? ==> Prepend(rest.value, Some([])) == rest
    ensures forall out :: Prepend(out, None) == None
  {
    if rest.Some? {
      assert [] + rest.value == rest.value && rest.value + [] == rest.value;
    }
  }

  method RunPercentDecode(s: string) returns (r: Result<string, Error>)
    ensures r == PercentDecode(s)
  {
    var out: string := [];
    var i := 0;
    assert s[0..] == s && Unescape(s[|s|..]) == Some([]);
    PrependNothing(Unescape(s));
    hide Unescape, Prepend, Utf8, FromHex;
    while i < |s|
      invariant 0 <= i <= |s| && Unescape(s) == Prepend(out, Unescape(s[i..]))
    {
      UnescapeStep(s, i);
      if s[i] == '%' {
        if i + 2 >= |s| {
          return Err(BadEscape);
        }
        var high, low := FromHex(s[i + 1]), FromHex(s[i + 2]);
        if high.None? || low.None? {
          return Err(BadEscape);
        }
        var c := (high.value * 16 + low.value) as char;
        PrependTwice(out, [c], Unescape(s[i + 3..]));
        out := out + [c];
        i := i + 3;
      } else {
        PrependTwice(out, [s[i]], Unescape(s[i + 1..]));
        out := out + [s[i]];
        i := i + 1;
      }
    }
    PrependNothing(Some(out));
    r := if Utf8(out) then Ok(out) else Err(BadUtf8);
  }

  /** Nothing an encoded byte is made of separates fields, keys or escapes. */
  lemma {:induction false} EncodedIsPlain(s: string)
    requires IsBytes(s)
    ensures ';' !in PercentEncode(s) && '=' !in PercentEncode(s)
  {
    if s != [] {
      EncodedIsPlain(s[1..]);
    }
  }

  lemma HexRoundTrip(nibble: nat)
    requires nibble < 16
    ensures FromHex(HexDigit(nibble)) == Some(nibble)
  {}

  lemma UnescapeByte(c: char, rest: string)
    requires c as int < 256
    ensures Unescape(EncodeByte(c) + rest) == Prepend([c], Unescape(rest))
  {
    var head := EncodeByte(c);
    assert (head + rest)[|head|..] == rest;
    HexRoundTrip(c as nat / 16);
    HexRoundTrip(c as nat % 16);
  }

  lemma {:induction false} UnescapeEncoded(s: string)
    requires IsBytes(s)
    ensures Unescape(PercentEncode(s)) == Some(s)
  {
    if s != [] {
      UnescapeEncoded(s[1..]);
      assert s == [s[0]] + s[1..];
      UnescapeByte(s[0], PercentEncode(s[1..]));
    }
  }

  /** Percent decoding undoes percent encoding. */
  lemma PercentRoundTrip(s: string)
    requires IsBytes(s)
    ensures PercentDecode(PercentEncode(s)) == if Utf8(s) then Ok(s) else Err(BadUtf8)
  {
    UnescapeEncoded(s);
  }

  const UPPER_HEX := "0123456789ABCDEF"
  const LOWER_HEX := "0123456789abcdef"

  /** The bytes that stand for themselves: the unreserved ones of section 2.3 of RFC 3986, without the tilde. */
  predicate Unreserved(c: char)
  {
    Between(c, 0x41, 0x5A) || Between(c, 0x61, 0x7A) || Between(c, 0x30, 0x39) || c as int in {0x2D, 0x2E, 0x5F}
  }

  /** Encoding goes byte by byte; the escape of a byte is a percent sign and two upper-case digits. */
  lemma PercentEncodeIs(a: string, c: char, b: string)
    requires IsBytes(a) && IsBytes(b) && c as int < 256
    ensures PercentEncode([]) == []
    ensures PercentEncode(a + [c] + b) == PercentEncode(a) + PercentEncode([c]) + PercentEncode(b)
    ensures PercentEncode([c])
            == if Unreserved(c) then [c] else ['%', UPPER_HEX[c as int / 16], UPPER_HEX[c as int % 16]]
  {
    assert Safe(c) <==> Unreserved(c);
    HexDigitIs(c as nat / 16);
    HexDigitIs(c as nat % 16);
    assert [c][1..] == [] && PercentEncode([c]) == EncodeByte(c) + [];
    PercentEncodeAppend(a + [c], b);
    PercentEncodeAppend(a, [c]);
  }

  lemma {:induction false} PercentEncodeAppend(a: string, b: string)
    requires IsBytes(a) && IsBytes(b)
    ensures PercentEncode(a + b) == PercentEncode(a) + PercentEncode(b)
  {
    if a == [] {
      assert a + b == b;
    } else {
      assert (a + b)[1..] == a[1..] + b;
      PercentEncodeAppend(a[1..], b);
    }
  }

  lemma HexDigitIs(nibble: nat)
    requires nibble < 16
    ensures HexDigit(nibble) == UPPER_HEX[nibble]
  {}

  /** Of the two digits of an escape, either case is read. */
  lemma FromHexIff(c: char, nibble: nat)
    ensures FromHex(c) == Some(nibble) <==> nibble < 16 && (c == UPPER_HEX[nibble] || c == LOWER_HEX[nibble])
  {}

  // ---------------------------------------------------------------- decimals

  function Digit(n: nat): char
    requires n < 10
  {
    '0' + n as char
  }

  function Print(n: nat): string
  {
    if n < 10 then [Digit(n)] else Print(n / 10) + [Digit(n % 10)]
  }

  predicate IsDigit(c: char) { '0' <= c <= '9' }

  function Value(s: string): Option<nat>
  {
    if s == [] then Some(0)
    else
      var last := s[|s| - 1];
      var init := Value(s[..|s| - 1]);
      if !IsDigit(last) || init.None? then None else Some(init.value * 10 + (last as nat - '0' as nat))
  }

  /** `usize::from_str`: an optional plus sign, then digits that do not overflow. */
  function ParseUsize(s: string): Result<nat, Error>
  {
    var digits := if s != [] && s[0] == '+' then s[1..] else s;
    if digits == [] || Value(digits).None? || Value(digits).value >= USIZE_LIMIT then Err(BadNumber)
    else Ok(Value(digits).value)
  }

  lemma {:induction false} PrintedValue(n: nat)
    ensures Print(n) != [] && IsDigit(Print(n)[0]) && Value(Print(n)) == Some(n)
    ensures ';' !in Print(n)
  {
    if n < 10 {
      assert Print(n)[..0] == [];
    } else {
      PrintedValue(n / 10);
      assert Print(n)[..|Print(n)| - 1] == Print(n / 10);
    }
  }

  lemma NumberRoundTrip(n: nat)
    requires n < USIZE_LIMIT
    ensures ParseUsize(Print(n)) == Ok(n)
  {
    PrintedValue(n);
  }

  function Zeros(k: nat): string { seq(k, _ => '0') }

  lemma {:induction false} ZerosCountNothing(k: nat, digits: string)
    ensures Value(Zeros(k) + digits) == Value(digits)
    decreases k + |digits|
  {
    var s := Zeros(k) + digits;
    if digits != [] {
      assert s[..|s| - 1] == Zeros(k) + digits[..|digits| - 1];
      ZerosCountNothing(k, digits[..|digits| - 1]);
    } else if k > 0 {
      assert s[..|s| - 1] == Zeros(k - 1) + [];
      ZerosCountNothing(k - 1, []);
    } else {
      assert s == digits;
    }
  }

  lemma {:induction false} DigitsArePrinted(digits: string, n: nat) returns (k: nat)
    requires digits != [] && Value(digits) == Some(n)
    ensures digits == Zeros(k) + Print(n)
  {
    var init, last := digits[..|digits| - 1], digits[|digits| - 1];
    assert digits == init + [last];
    var v := last as nat - '0' as nat;
    if init == [] {
      k := 0;
    } else {
      var m := Value(init).value;
      k := DigitsArePrinted(init, m);
      if m == 0 {
        k := k + 1;
        assert Zeros(k) == Zeros(k - 1) + [Digit(0)];
      } else {
        assert n / 10 == m && n % 10 == v;
        assert digits == Zeros(k) + (Print(m) + [last]);
      }
    }
  }

  /** `k` zeros and the number as it prints, perhaps behind a plus sign. */
  predicate Spells(s: string, n: nat, k: nat)
  {
    var digits := Zeros(k) + Print(n);
    s == digits || s == "+" + digits
  }

  lemma DigitsParse(digits: string, n: nat)
    requires digits != [] && IsDigit(digits[0]) && Value(digits) == Some(n) && n < USIZE_LIMIT
    ensures ParseUsize(digits) == Ok(n) && ParseUsize("+" + digits) == Ok(n)
  {
    hide Value;
    assert ("+" + digits)[1..] == digits;
  }

  lemma ZerosAreDigits(k: nat, digits: string)
    requires digits != [] && IsDigit(digits[0])
    ensures IsDigit((Zeros(k) + digits)[0])
  {
    if k > 0 {
      assert (Zeros(k) + digits)[0] == Zeros(k)[0] == '0';
    }
  }

  lemma SpelledParses(s: string, n: nat, k: nat)
    requires n < USIZE_LIMIT && Spells(s, n, k)
    ensures ParseUsize(s) == Ok(n)
  {
    hide Print, Value, Zeros, ParseUsize;
    PrintedValue(n);
    ZerosCountNothing(k, Print(n));
    ZerosAreDigits(k, Print(n));
    DigitsParse(Zeros(k) + Print(n), n);
  }

  lemma ParsedIsSpelled(s: string, n: nat) returns (k: nat)
    requires ParseUsize(s) == Ok(n)
    ensures Spells(s, n, k)
  {
    hide Print, Value, Zeros;
    if s[0] == '+' {
      k := DigitsArePrinted(s[1..], n);
      assert s == "+" + s[1..];
    } else {
      k := DigitsArePrinted(s, n);
    }
  }

  /** A number is read from what prints it, with a plus sign and zeros in front at will, and from nothing else. */
  lemma ParseUsizeIff(s: string, n: nat)
    ensures ParseUsize(s) == Ok(n) <==> n < USIZE_LIMIT && exists k: nat :: Spells(s, n, k)
  {
    assert ParseUsize(s) == Ok(n) ==> n < USIZE_LIMIT;
    hide *;
    if ParseUsize(s) == Ok(n) {
      var k := ParsedIsSpelled(s, n);
    }
    if n < USIZE_LIMIT && exists k: nat :: Spells(s, n, k) {
      var k: nat :| Spells(s, n, k);
      SpelledParses(s, n, k);
    }
  }

  // ----------------------------------------------------------------- runtimes

  function EncodeRuntime(rt: Runtime): string
  {
    match rt
    case LocalQwen3CandleCuda => "local-qwen3-candle-cuda"
    case LocalFastembedOnnxCpu => "local-fastembed-onnx-cpu"
    case LocalFastembedOnnxMigraphx => "local-fastembed-onnx-migraphx"
    case LocalFastembedOnnxDirectml => "local-fastembed-onnx-directml"
    case OpenRouter => "openrouter"
  }

  function DecodeRuntime(s: string): Result<Runtime, Error>
  {
    if s == "local-qwen3-candle-cuda" then Ok(LocalQwen3CandleCuda)
    else if s == "local-fastembed-onnx-cpu" then Ok(LocalFastembedOnnxCpu)
    else if s == "local-fastembed-onnx-migraphx" then Ok(LocalFastembedOnnxMigraphx)
    else if s == "local-fastembed-onnx-directml" then Ok(LocalFastembedOnnxDirectml)
    else if s == "openrouter" then Ok(OpenRouter)
    else Err(BadRuntime)
  }

  lemma RuntimeRoundTrip(rt: Runtime)
    ensures DecodeRuntime(EncodeRuntime(rt)) == Ok(rt) && ';' !in EncodeRuntime(rt)
  {
    match rt
    case LocalQwen3CandleCuda =>
    case LocalFastembedOnnxCpu =>
      assert |EncodeRuntime(rt)| == 24 && EncodeRuntime(rt)[6] == 'f';
      assert "local-qwen3-candle-cuda"[6] == 'q';
    case LocalFastembedOnnxMigraphx =>
      assert |EncodeRuntime(rt)| == 29 && EncodeRuntime(rt)[21] == 'm';
      assert |"local-fastembed-onnx-cpu"| == 24 && |"local-qwen3-candle-cuda"| == 23;
    case LocalFastembedOnnxDirectml =>
      assert |EncodeRuntime(rt)| == 29 && EncodeRuntime(rt)[21] == 'd';
      assert |"local-fastembed-onnx-cpu"| == 24 && |"local-qwen3-candle-cuda"| == 23;
      assert "local-fastembed-onnx-migraphx"[21] == 'm';
    case OpenRouter =>
      assert |EncodeRuntime(rt)| == 10;
  }

  // -------------------------------------------------------------- the fields

  function IndexOf(s: string, c: char): (i: nat)
    ensures i <= |s| && (i < |s| ==> s[i] == c)
    ensures forall k :: 0 <= k < i ==> s[k] != c
  {
    if s == [] || s[0] == c then 0 else 1 + IndexOf(s[1..], c)
  }

  /** `str::split`: always at least one piece. */
  function SplitOn(s: string, c: char): (r: seq<string>)
    ensures r != []
    decreases |s|
  {
    var i := IndexOf(s, c);
    if i == |s| then [s] else [s[..i]] + SplitOn(s[i + 1..], c)
  }

  function JoinWith(fields: seq<string>, c: char): string
    requires fields != []
  {
    if |fields| == 1 then fields[0] else fields[0] + [c] + JoinWith(fields[1..], c)
  }

  lemma IndexOfFirst(head: string, c: char, tail: string)
    requires c !in head
    ensures IndexOf(head + [c] + tail, c) == |head|
    ensures IndexOf(head, c) == |head|
  {
    var s := head + [c] + tail;
    assert s[|head|] == c;
    assert forall k :: 0 <= k < |head| ==> s[k] == head[k];
  }

  lemma {:induction false} SplitJoined(fields: seq<string>, c: char)
    requires fields != [] && forall i :: 0 <= i < |fields| ==> c !in fields[i]
    ensures SplitOn(JoinWith(fields, c), c) == fields
  {
    IndexOfFirst(fields[0], c, []);
    if |fields| > 1 {
      var tail := JoinWith(fields[1..], c);
      var s := fields[0] + [c] + tail;
      IndexOfFirst(fields[0], c, tail);
      SplitJoined(fields[1..], c);
      assert s[..|fields[0]|] == fields[0] && s[|fields[0]| + 1..] == tail;
      assert fields == [fields[0]] + fields[1..];
    }
  }

  datatype Field =
    | Version(text: string) | RuntimeField(runtime: Runtime) | Model(id: string)
    | Dim(n: nat) | MaxLen(n: nat) | Query(text: string) | Unknown
  {
    function Tag(): nat
    {
      match this
      case Version(_) => 0 case RuntimeField(_) => 1 case Model(_) => 2
      case Dim(_) => 3 case MaxLen(_) => 4 case Query(_) => 5 case Unknown => 6
    }
  }

  function MapOk<A, B>(r: Result<A, Error>, f: A -> B): Result<B, Error>
  {
    match r case Ok(a) => Ok(f(a)) case Err(e) => Err(e)
  }

  function ParseKeyed(key: string, value: string): Result<Field, Error>
  {
    if key == "v" then Ok(Version(value))
    else if key == "rt" then MapOk(DecodeRuntime(value), rt => RuntimeField(rt))
    else if key == "model" then MapOk(PercentDecode(value), s => Model(s))
    else if key == "dim" then MapOk(ParseUsize(value), n => Dim(n))
    else if key == "max" then MapOk(ParseUsize(value), n => MaxLen(n))
    else if key == "query" then MapOk(PercentDecode(value), s => Query(s))
    else Ok(Unknown)
  }

  function ParseField(field: string): Result<Field, Error>
  {
    var i := IndexOf(field, '=');
    if i == |field| then Err(Malformed) else ParseKeyed(field[..i], field[i + 1..])
  }

  datatype Slots = Slots(version: Option<string>, runtime: Option<Runtime>, modelId: Option<string>,
                         dim: Option<nat>, maxLen: Option<nat>, query: Option<string>)
  {
    /** What the slot of a key holds. */
    function At(tag: nat): Option<Field>
    {
      if tag == 0 && version.Some? then Some(Version(version.value))
      else if tag == 1 && runtime.Some? then Some(RuntimeField(runtime.value))
      else if tag == 2 && modelId.Some? then Some(Model(modelId.value))
      else if tag == 3 && dim.Some? then Some(Dim(dim.value))
      else if tag == 4 && maxLen.Some? then Some(MaxLen(maxLen.value))
      else if tag == 5 && query.Some? then Some(Query(query.value))
      else None
    }

    /** `set_once`, on the slot the field belongs to. */
    function SetOnce(f: Field): Result<Slots, Error>
    {
      if At(f.Tag()).Some? then Err(Duplicate)
      else match f
        case Version(text) => Ok(this.(version := Some(text)))
        case RuntimeField(rt) => Ok(this.(runtime := Some(rt)))
        case Model(id) => Ok(this.(modelId := Some(id)))
        case Dim(n) => Ok(this.(dim := Some(n)))
        case MaxLen(n) => Ok(this.(maxLen := Some(n)))
        case Query(text) => Ok(this.(query := Some(text)))
        case Unknown => Ok(this)
    }
  }

  const EMPTY := Slots(None, None, None, None, None, None)

  function Take(before: Result<Slots, Error>, field: string): Result<Slots, Error>
  {
    if before.Err? then before
    else
      var parsed := ParseField(field);
      if parsed.Err? then Err(parsed.error) else before.value.SetOnce(parsed.value)
  }

  /** The slots filled by the fields, in order. */
  function Collect(fields: seq<string>): Result<Slots, Error>
  {
    if fields == [] then Ok(EMPTY) else Take(Collect(fields[..|fields| - 1]), fields[|fields| - 1])
  }

  function Finish(s: Slots): Result<Identity, Error>
  {
    if s.version.None? then Err(Missing)
    else if s.version.value != "2" then Err(BadVersion)
    else if s.runtime.None? || s.modelId.None? || s.dim.None? || s.maxLen.None? || s.query.None? then Err(Missing)
    else Ok(Identity(s.runtime.value, s.modelId.value, s.dim.value, s.maxLen.value, s.query.value))
  }

  function Decode(input: string): Result<Identity, Error>
  {
    var fields := SplitOn(input, ';');
    if fields[0] != "emb" then Err(BadPrefix)
    else
      var slots := Collect(fields[1..]);
      if slots.Err? then Err(slots.error) else Finish(slots.value)
  }

  /** The decoding loop, leaving at the first error. */
  method RunDecode(input: string) returns (r: Result<Identity, Error>)
    ensures r == Decode(input)
  {
    var fields := SplitOn(input, ';');
    if fields[0] != "emb" {
      return Err(BadPrefix);
    }
    var rest := fields[1..];
    var slots := EMPTY;
    for i := 0 to |rest|
      invariant Collect(rest[..i]) == Ok(slots)
    {
      var parsed := ParseField(rest[i]);
      CollectStep(rest, i);
      if parsed.Err? {
        CollectStops(rest, i + 1);
        return Err(parsed.error);
      }
      var next := slots.SetOnce(parsed.value);
      if next.Err? {
        CollectStops(rest, i + 1);
        return Err(next.error);
      }
      slots := next.value;
    }
    assert rest[..|rest|] == rest;
    r := Finish(slots);
  }

  lemma CollectStep(fields: seq<string>, i: nat)
    requires i < |fields|
    ensures Collect(fields[..i + 1]) == Take(Collect(fields[..i]), fields[i])
  {
    assert fields[..i + 1][..i] == fields[..i];
  }

  /** An error at some field is the error of the whole. */
  lemma {:induction false} CollectStops(fields: seq<string>, n: nat)
    requires n <= |fields| && Collect(fields[..n]).Err?
    ensures Collect(fields) == Collect(fields[..n])
    decreases |fields| - n
  {
    if n < |fields| {
      CollectStep(fields, n);
      CollectStops(fields, n + 1);
    } else {
      assert fields[..n] == fields;
    }
  }

  function Keyed(key: string, value: string): string { key + "=" + value }

  function FieldsOf(x: Identity): seq<string>
    requires Representable(x)
  {
    ["emb", Keyed("v", "2"), Keyed("rt", EncodeRuntime(x.runtime)), Keyed("model", PercentEncode(x.modelId)),
     Keyed("dim", Print(x.dim)), Keyed("max", Print(x.maxLen)), Keyed("query", PercentEncode(x.query))]
  }

  /** `emb;v=2;rt=…;model=…;dim=…;max=…;query=…` */
  function Encode(x: Identity): string
    requires Representable(x)
  {
    "emb" + ";" + (Keyed("v", "2") + ";" + (Keyed("rt", EncodeRuntime(x.runtime))
    + ";" + (Keyed("model", PercentEncode(x.modelId)) + ";" + (Keyed("dim", Print(x.dim))
    + ";" + (Keyed("max", Print(x.maxLen)) + ";" + Keyed("query", PercentEncode(x.query)))))))
  }

  // -------------------------------------------------------------- round trip

  lemma JoinFrom(fields: seq<string>, i: nat)
    requires i < |fields| - 1
    ensures JoinWith(fields[i..], ';') == fields[i] + ";" + JoinWith(fields[i + 1..], ';')
  {
    assert fields[i..][1..] == fields[i + 1..];
  }

  lemma EncodeIsJoined(x: Identity)
    requires Representable(x)
    ensures Encode(x) == JoinWith(FieldsOf(x), ';')
  {
    var f := FieldsOf(x);
    assert JoinWith(f[6..], ';') == f[6] && f[0..] == f;
    hide JoinWith, PercentEncode, Print, EncodeRuntime, Keyed;
    JoinFrom(f, 0);
    JoinFrom(f, 1);
    JoinFrom(f, 2);
    JoinFrom(f, 3);
    JoinFrom(f, 4);
    JoinFrom(f, 5);
  }

  /** The text of an identity, field by field. */
  lemma EncodeReads(x: Identity)
    requires Representable(x)
    ensures Encode(x) == JoinWith(["emb", "v=2", "rt=" + EncodeRuntime(x.runtime), "model=" + PercentEncode(x.modelId),
                                   "dim=" + Print(x.dim), "max=" + Print(x.maxLen),
                                   "query=" + PercentEncode(x.query)], ';')
  {
    EncodeIsJoined(x);
    hide JoinWith, PercentEncode, Print, EncodeRuntime, Encode;
    assert Keyed("v", "2") == "v=2" && "rt" + "=" == "rt=" && "model" + "=" == "model=" && "dim" + "=" == "dim=";
    assert "max" + "=" == "max=" && "query" + "=" == "query=";
  }

  lemma FieldsArePlain(x: Identity)
    requires Representable(x)
    ensures forall i :: 0 <= i < |FieldsOf(x)| ==> ';' !in FieldsOf(x)[i]
  {
    EncodedIsPlain(x.modelId);
    EncodedIsPlain(x.query);
    PrintedValue(x.dim);
    PrintedValue(x.maxLen);
    RuntimeRoundTrip(x.runtime);
    hide Keyed, PercentEncode, Print, EncodeRuntime;
    KeyedIsPlain("v", "2");
    KeyedIsPlain("rt", EncodeRuntime(x.runtime));
    KeyedIsPlain("model", PercentEncode(x.modelId));
    KeyedIsPlain("dim", Print(x.dim));
    KeyedIsPlain("max", Print(x.maxLen));
    KeyedIsPlain("query", PercentEncode(x.query));
  }

  lemma KeyedIsPlain(key: string, value: string)
    requires ';' !in key && ';' !in value
    ensures ';' !in Keyed(key, value)
  {}

  lemma KeyedField(key: string, value: string)
    requires '=' !in key
    ensures ParseField(Keyed(key, value)) == ParseKeyed(key, value)
  {
    IndexOfFirst(key, '=', value);
    var field := key + ['='] + value;
    assert field[..|key|] == key && field[|key| + 1..] == value;
  }

  lemma FieldsParse(x: Identity)
    requires Representable(x)
    ensures forall i :: 0 <= i < 6 ==> ParseField(FieldsOf(x)[1..][i]) == Ok(FieldNo(x, i))
  {
    hide Keyed, ParseField, PercentEncode, PercentDecode, Print, ParseUsize, EncodeRuntime, DecodeRuntime;
    KeyedField("v", "2");
    KeyedField("rt", EncodeRuntime(x.runtime));
    KeyedField("model", PercentEncode(x.modelId));
    KeyedField("dim", Print(x.dim));
    KeyedField("max", Print(x.maxLen));
    KeyedField("query", PercentEncode(x.query));
    RuntimeRoundTrip(x.runtime);
    PercentRoundTrip(x.modelId);
    PercentRoundTrip(x.query);
    NumberRoundTrip(x.dim);
    NumberRoundTrip(x.maxLen);
  }

  /** What the `k`-th field after the prefix says of `x`. */
  function FieldNo(x: Identity, k: nat): Field
  {
    if k == 0 then Version("2") else if k == 1 then RuntimeField(x.runtime) else if k == 2 then Model(x.modelId)
    else if k == 3 then Dim(x.dim) else if k == 4 then MaxLen(x.maxLen) else Query(x.query)
  }

  /** The slots after the first `k` fields. */
  function Filled(x: Identity, k: nat): Slots
  {
    Slots(if k > 0 then Some("2") else None, if k > 1 then Some(x.runtime) else None,
          if k > 2 then Some(x.modelId) else None, if k > 3 then Some(x.dim) else None,
          if k > 4 then Some(x.maxLen) else None, if k > 5 then Some(x.query) else None)
  }

  lemma FillNext(x: Identity, k: nat)
    requires k < 6
    ensures Filled(x, k).SetOnce(FieldNo(x, k)) == Ok(Filled(x, k + 1))
  {}

  lemma {:induction false} CollectFilled(f: seq<string>, x: Identity, k: nat)
    requires |f| == 6 && k <= 6 && forall i :: 0 <= i < 6 ==> ParseField(f[i]) == Ok(FieldNo(x, i))
    ensures Collect(f[..k]) == Ok(Filled(x, k))
  {
    if k > 0 {
      CollectFilled(f, x, k - 1);
      CollectStep(f, k - 1);
      hide ParseField, Collect, Filled, FieldNo;
      FillNext(x, k - 1);
    }
  }

  lemma FinishFilled(x: Identity)
    ensures Finish(Filled(x, 6)) == Ok(x)
  {}

  /** Decoding an encoded identity gives it back. */
  lemma RoundTrip(x: Identity)
    requires Representable(x)
    ensures Decode(Encode(x)) == Ok(x)
  {
    EncodeIsJoined(x);
    FieldsArePlain(x);
    SplitJoined(FieldsOf(x), ';');
    FieldsParse(x);
    hide Keyed, ParseField, Collect, PercentEncode, Print, EncodeRuntime, Filled, FieldNo;
    var f := FieldsOf(x)[1..];
    assert f[..6] == f;
    CollectFilled(f, x, 6);
    FinishFilled(x);
  }

  /** Different identities have different encodings. */
  lemma EncodeIsInjective(x: Identity, y: Identity)
    requires Representable(x) && Representable(y) && Encode(x) == Encode(y)
    ensures x == y
  {
    RoundTrip(x);
    RoundTrip(y);
  }

  // ---------------------------------------------------- whatever decodes encodes

  lemma {:induction false} SplitKeepsBytes(s: string, c: char)
    requires IsBytes(s)
    ensures forall i :: 0 <= i < |SplitOn(s, c)| ==> IsBytes(SplitOn(s, c)[i])
    decreases |s|
  {
    var i := IndexOf(s, c);
    if i < |s| {
      SplitKeepsBytes(s[i + 1..], c);
    }
  }

  lemma {:induction false} UnescapeKeepsBytes(s: string)
    requires IsBytes(s) && Unescape(s).Some?
    ensures IsBytes(Unescape(s).value)
    decreases |s|
  {
    if s != [] {
      if s[0] != '%' {
        UnescapeKeepsBytes(s[1..]);
      } else {
        UnescapeKeepsBytes(s[3..]);
      }
    }
  }

  /** The field says something an identity can hold. */
  ghost predicate FieldFits(f: Field)
  {
    match f
    case Model(id) => IsBytes(id) && Utf8(id)
    case Query(text) => IsBytes(text) && Utf8(text)
    case Dim(n) => n < USIZE_LIMIT
    case MaxLen(n) => n < USIZE_LIMIT
    case _ => true
  }

  ghost predicate SlotsFit(slots: Slots)
  {
    forall t: nat :: slots.At(t).Some? ==> FieldFits(slots.At(t).value)
  }

  lemma ParsedFieldFits(field: string)
    requires IsBytes(field) && ParseField(field).Ok?
    ensures FieldFits(ParseField(field).value)
  {
    hide Unescape, Utf8, Value, DecodeRuntime;
    var value := field[IndexOf(field, '=') + 1..];
    if Unescape(value).Some? {
      UnescapeKeepsBytes(value);
    }
  }

  lemma {:induction false} CollectedFits(fields: seq<string>)
    requires Collect(fields).Ok? && forall i :: 0 <= i < |fields| ==> IsBytes(fields[i])
    ensures SlotsFit(Collect(fields).value)
  {
    if fields != [] {
      var init, last := fields[..|fields| - 1], fields[|fields| - 1];
      assert Collect(fields) == Take(Collect(init), last) && forall i :: 0 <= i < |init| ==> init[i] == fields[i];
      hide Collect, ParseField, FieldFits;
      CollectedFits(init);
      ParsedFieldFits(last);
      SetOnceFits(Collect(init).value, ParseField(last).value);
    }
  }

  lemma SetOnceFits(slots: Slots, f: Field)
    requires SlotsFit(slots) && FieldFits(f) && slots.SetOnce(f).Ok?
    ensures SlotsFit(slots.SetOnce(f).value)
  {
    hide FieldFits;
    if !f.Unknown? {
      forall t: nat
        ensures slots.SetOnce(f).value.At(t) == if t == f.Tag() then Some(f) else slots.At(t)
      {
        SetOncePuts(slots, f, t);
      }
    }
  }

  lemma FinishedIsRepresentable(slots: Slots)
    requires SlotsFit(slots) && Finish(slots).Ok?
    ensures Representable(Finish(slots).value)
  {
    hide IsBytes, Utf8;
    assert slots.At(2) == Some(Model(slots.modelId.value)) && slots.At(5) == Some(Query(slots.query.value));
    assert slots.At(3) == Some(Dim(slots.dim.value)) && slots.At(4) == Some(MaxLen(slots.maxLen.value));
  }

  /** What decodes at all decodes to an identity that can be encoded, and encoding it keeps its meaning. */
  lemma DecodedEncodesAlike(s: string)
    requires IsBytes(s) && Decode(s).Ok?
    ensures Representable(Decode(s).value) && Decode(Encode(Decode(s).value)) == Decode(s)
  {
    var fields := SplitOn(s, ';');
    SplitKeepsBytes(s, ';');
    assert forall i :: 0 <= i < |fields[1..]| ==> fields[1..][i] == fields[i + 1];
    hide SplitOn, Collect, Finish, IsBytes, Representable;
    CollectedFits(fields[1..]);
    FinishedIsRepresentable(Collect(fields[1..]).value);
    RoundTrip(Decode(s).value);
  }

  // ------------------------------------------------------------ what decodes

  /** Two of the fields are for the same slot. */
  ghost predicate Clash(fields: seq<string>, i: nat, j: nat)
    requires i < |fields| && j < |fields|
  {
    var a, b := ParseField(fields[i]), ParseField(fields[j]);
    a.Ok? && b.Ok? && a.value.Tag() == b.value.Tag() && !a.value.Unknown?
  }

  ghost predicate AllParse(fields: seq<string>)
  {
    && (forall i :: 0 <= i < |fields| ==> ParseField(fields[i]).Ok?)
    && (forall i, j :: 0 <= i < j < |fields| ==> !Clash(fields, i, j))
  }

  ghost predicate Says(fields: seq<string>, f: Field)
  {
    exists i :: 0 <= i < |fields| && ParseField(fields[i]) == Ok(f)
  }

  lemma SaysPush(fields: seq<string>, last: string, f: Field)
    ensures Says(fields + [last], f) <==> Says(fields, f) || ParseField(last) == Ok(f)
  {
    hide ParseField;
    var all := fields + [last];
    if Says(fields, f) {
      var i :| 0 <= i < |fields| && ParseField(fields[i]) == Ok(f);
      assert all[i] == fields[i];
    }
    assert all[|fields|] == last;
  }

  lemma AllParsePush(fields: seq<string>, last: string)
    ensures AllParse(fields + [last]) <==>
            && AllParse(fields) && ParseField(last).Ok?
            && (ParseField(last).value.Unknown?
                || forall f: Field :: Says(fields, f) ==> f.Tag() != ParseField(last).value.Tag())
  {
    hide ParseField;
    var all := fields + [last];
    assert forall i :: 0 <= i < |fields| ==> all[i] == fields[i];
    if AllParse(all) {
      assert ParseField(all[|fields|]).Ok?;
      forall i, j | 0 <= i < j < |fields|
        ensures !Clash(fields, i, j)
      {
        assert !Clash(all, i, j);
      }
      forall f: Field | Says(fields, f) && !ParseField(last).value.Unknown?
        ensures f.Tag() != ParseField(last).value.Tag()
      {
        var i :| 0 <= i < |fields| && ParseField(fields[i]) == Ok(f);
        assert !Clash(all, i, |fields|);
      }
    } else if AllParse(fields) && ParseField(last).Ok? {
      var i, j :| 0 <= i < j < |all| && Clash(all, i, j);
      assert j < |fields| ==> Clash(fields, i, j);
      assert Says(fields, ParseField(all[i]).value);
    }
  }

  /** The slots hold what the fields say. */
  ghost predicate Holds(slots: Slots, fields: seq<string>)
  {
    forall f: Field :: !f.Unknown? ==> (slots.At(f.Tag()) == Some(f) <==> Says(fields, f))
  }

  lemma {:induction false} CollectIff(fields: seq<string>)
    ensures Collect(fields).Ok? <==> AllParse(fields)
    ensures Collect(fields).Ok? ==> Holds(Collect(fields).value, fields)
  {
    if fields != [] {
      var init, last := fields[..|fields| - 1], fields[|fields| - 1];
      assert fields == init + [last] && Collect(fields) == Take(Collect(init), last);
      CollectIff(init);
      AllParsePush(init, last);
      hide ParseField, AllParse, Collect;
      if Collect(init).Ok? && ParseField(last).Ok? {
        TakeHolds(Collect(init).value, init, last);
      }
    }
  }

  lemma TakeHolds(slots: Slots, fields: seq<string>, last: string)
    requires Holds(slots, fields) && ParseField(last).Ok?
    ensures var f := ParseField(last).value;
            && (slots.SetOnce(f).Ok? <==> f.Unknown? || forall g: Field :: Says(fields, g) ==> g.Tag() != f.Tag())
            && (slots.SetOnce(f).Ok? ==> Holds(slots.SetOnce(f).value, fields + [last]))
  {
    hide ParseField, Says;
    var f := ParseField(last).value;
    forall g: Field
      ensures Says(fields + [last], g) <==> Says(fields, g) || f == g
    {
      SaysPush(fields, last, g);
    }
    if !f.Unknown? {
      forall t: nat
        ensures slots.SetOnce(f).Ok? <==> slots.At(f.Tag()).None?
        ensures slots.SetOnce(f).Ok? ==> slots.SetOnce(f).value.At(t) == if t == f.Tag() then Some(f) else slots.At(t)
        ensures slots.At(t).Some? ==> slots.At(t).value.Tag() == t && !slots.At(t).value.Unknown?
      {
        SetOncePuts(slots, f, t);
      }
      if slots.At(f.Tag()).Some? {
        assert Says(fields, slots.At(f.Tag()).value);
      }
    }
  }

  lemma FinishIff(slots: Slots, x: Identity)
    ensures Finish(slots) == Ok(x) <==> forall k: nat :: k < 6 ==> slots.At(k) == Some(FieldNo(x, k))
  {
    if Finish(slots) == Ok(x) {
      forall k: nat | k < 6
        ensures slots.At(k) == Some(FieldNo(x, k))
      {}
    }
    if forall k: nat :: k < 6 ==> slots.At(k) == Some(FieldNo(x, k)) {
      assert slots.At(0) == Some(Version("2")) && slots.At(1) == Some(RuntimeField(x.runtime));
      assert slots.At(2) == Some(Model(x.modelId)) && slots.At(3) == Some(Dim(x.dim));
      assert slots.At(4) == Some(MaxLen(x.maxLen)) && slots.At(5) == Some(Query(x.query));
    }
  }

  /**
    An input decodes to `x` exactly if it has the prefix, every field behind it is well-formed, no two are for the
    same slot, the version says 2, and the other known fields are there and say what `x` is.
   */
  lemma DecodesToIff(input: string, x: Identity)
    ensures Decode(input) == Ok(x) <==>
            var fields := SplitOn(input, ';')[1..];
            && SplitOn(input, ';')[0] == "emb" && AllParse(fields)
            && Says(fields, Version("2")) && Says(fields, RuntimeField(x.runtime)) && Says(fields, Model(x.modelId))
            && Says(fields, Dim(x.dim)) && Says(fields, MaxLen(x.maxLen)) && Says(fields, Query(x.query))
  {
    var fields := SplitOn(input, ';')[1..];
    CollectIff(fields);
    if Collect(fields).Ok? {
      SlotsSay(Collect(fields).value, fields, x);
    }
    hide SplitOn, Collect, AllParse, Says, Holds, Finish;
  }

  lemma SlotsSay(slots: Slots, fields: seq<string>, x: Identity)
    requires Holds(slots, fields)
    ensures Finish(slots) == Ok(x) <==>
            && Says(fields, Version("2")) && Says(fields, RuntimeField(x.runtime)) && Says(fields, Model(x.modelId))
            && Says(fields, Dim(x.dim)) && Says(fields, MaxLen(x.maxLen)) && Says(fields, Query(x.query))
  {
    FinishIff(slots, x);
    forall k: nat | k < 6
      ensures slots.At(k) == Some(FieldNo(x, k)) <==> Says(fields, FieldNo(x, k))
    {
      assert FieldNo(x, k).Tag() == k;
    }
    hide Says, Finish, Holds;
    assert FieldNo(x, 0) == Version("2") && FieldNo(x, 1) == RuntimeField(x.runtime);
    assert FieldNo(x, 2) == Model(x.modelId) && FieldNo(x, 3) == Dim(x.dim);
    assert FieldNo(x, 4) == MaxLen(x.maxLen) && FieldNo(x, 5) == Query(x.query);
  }

  // ----------------------------------------------------- field order is irrelevant

  /** The field says something: it has a known key, or is in error. */
  predicate Matters(field: string) { ParseField(field) != Ok(Unknown) }

  function Relevant(fields: seq<string>): multiset<string>
  {
    if fields == [] then multiset{}
    else
      var last := fields[|fields| - 1];
      Relevant(fields[..|fields| - 1]) + (if Matters(last) then multiset{last} else multiset{})
  }

  /** No field in error, none of the known keys twice. */
  ghost predicate Consistent(m: multiset<string>)
  {
    && (forall f :: f in m ==> ParseField(f).Ok?)
    && (forall f :: f in m ==> m[f] == 1)
    && (forall f, g :: f in m && g in m && f != g && ParseField(f).Ok? && ParseField(g).Ok? ==>
          ParseField(f).value.Tag() != ParseField(g).value.Tag())
  }

  /** The slots hold exactly what the fields say. */
  ghost predicate Reflects(slots: Slots, m: multiset<string>)
  {
    && (forall f :: f in m ==> ParseField(f).Ok? && slots.At(ParseField(f).value.Tag()) == Some(ParseField(f).value))
    && (forall t: nat :: slots.At(t).Some? ==> exists f :: f in m && ParseField(f) == Ok(slots.At(t).value))
  }

  lemma SetOncePuts(slots: Slots, f: Field, t: nat)
    requires !f.Unknown?
    ensures slots.SetOnce(f).Ok? <==> slots.At(f.Tag()).None?
    ensures slots.SetOnce(f).Ok? ==> slots.SetOnce(f).value.At(t) == if t == f.Tag() then Some(f) else slots.At(t)
    ensures slots.At(t).Some? ==> slots.At(t).value.Tag() == t && !slots.At(t).value.Unknown?
  {}

  /** Collecting succeeds exactly on consistent fields, whatever their order. */
  lemma {:induction false} CollectIffConsistent(fields: seq<string>)
    ensures Collect(fields).Ok? <==> Consistent(Relevant(fields))
    ensures Collect(fields).Ok? ==> Reflects(Collect(fields).value, Relevant(fields))
  {
    hide ParseField;
    if fields != [] {
      var init, last := fields[..|fields| - 1], fields[|fields| - 1];
      CollectIffConsistent(init);
      if !Matters(last) {
        assert Relevant(fields) == Relevant(init);
      } else {
        TakeRelevant(Collect(init), Relevant(init), last);
      }
    }
  }

  lemma TakeRelevant(before: Result<Slots, Error>, m: multiset<string>, field: string)
    requires Matters(field) && (before.Ok? <==> Consistent(m)) && (before.Ok? ==> Reflects(before.value, m))
    ensures Take(before, field).Ok? <==> Consistent(m + multiset{field})
    ensures Take(before, field).Ok? ==> Reflects(Take(before, field).value, m + multiset{field})
  {
    hide ParseField;
    var m', parsed := m + multiset{field}, ParseField(field);
    assert forall f :: f in m ==> f in m' && m[f] <= m'[f];
    if before.Err? {
      SmallerIsConsistent(m, field);
    } else if parsed.Ok? {
      var slots := before.value;
      var at := slots.At(parsed.value.Tag());
      SetOncePuts(slots, parsed.value, parsed.value.Tag());
      if at.Some? {
        var g :| g in m && ParseField(g) == Ok(at.value);
        if g == field {
          assert m'[g] >= 2;
        }
      } else {
        TakeFresh(slots, m, field);
      }
    }
  }

  lemma SmallerIsConsistent(m: multiset<string>, field: string)
    ensures Consistent(m + multiset{field}) ==> Consistent(m)
  {
    hide ParseField;
    var m' := m + multiset{field};
    assert forall f :: f in m ==> f in m' && m[f] <= m'[f];
  }

  /** A field for a slot that is still empty. */
  lemma TakeFresh(slots: Slots, m: multiset<string>, field: string)
    requires Consistent(m) && Reflects(slots, m) && Matters(field) && ParseField(field).Ok?
    requires slots.At(ParseField(field).value.Tag()).None?
    ensures Consistent(m + multiset{field})
    ensures slots.SetOnce(ParseField(field).value).Ok?
    ensures Reflects(slots.SetOnce(ParseField(field).value).value, m + multiset{field})
  {
    hide ParseField;
    var m', f := m + multiset{field}, ParseField(field).value;
    assert field !in m;
    FreshIsConsistent(slots, m, field);
    hide Consistent;
    forall t: nat
      ensures slots.SetOnce(f).Ok? && slots.SetOnce(f).value.At(t) == if t == f.Tag() then Some(f) else slots.At(t)
    {
      SetOncePuts(slots, f, t);
    }
    assert forall g :: g in m' <==> g in m || g == field;
  }

  lemma FreshIsConsistent(slots: Slots, m: multiset<string>, field: string)
    requires Consistent(m) && Reflects(slots, m) && ParseField(field).Ok?
    requires slots.At(ParseField(field).value.Tag()).None?
    ensures Consistent(m + multiset{field})
  {
    hide ParseField, Slots.At;
    var m' := m + multiset{field};
    assert field !in m;
    assert forall g :: g in m' <==> g in m || g == field;
    assert forall g :: g in m ==> m'[g] == m[g];
  }

  lemma SlotsAreWhatTheyHold(a: Slots, b: Slots)
    requires forall t: nat :: a.At(t) == b.At(t)
    ensures a == b
  {
    assert a.At(0) == b.At(0) && a.At(1) == b.At(1) && a.At(2) == b.At(2);
    assert a.At(3) == b.At(3) && a.At(4) == b.At(4) && a.At(5) == b.At(5);
  }

  lemma AtIsTagged(slots: Slots, t: nat)
    ensures slots.At(t).Some? ==> slots.At(t).value.Tag() == t
  {}

  lemma SameFieldsSameSlots(a: Slots, b: Slots, m: multiset<string>)
    requires Reflects(a, m) && Reflects(b, m)
    ensures a == b
  {
    hide ParseField;
    forall t: nat
      ensures a.At(t) == b.At(t)
    {
      AtIsTagged(a, t);
      AtIsTagged(b, t);
      if a.At(t).Some? {
        var f :| f in m && ParseField(f) == Ok(a.At(t).value);
      }
      if b.At(t).Some? {
        var f :| f in m && ParseField(f) == Ok(b.At(t).value);
      }
    }
    SlotsAreWhatTheyHold(a, b);
  }

  /**
    Neither the order of the fields nor fields with unknown keys matter: two
    inputs that say the same things both fail, or decode to the same identity.
   */
  lemma FieldOrderIsIrrelevant(a: string, b: string)
    requires SplitOn(a, ';')[0] == SplitOn(b, ';')[0]
    requires Relevant(SplitOn(a, ';')[1..]) == Relevant(SplitOn(b, ';')[1..])
    ensures Decode(a).Ok? <==> Decode(b).Ok?
    ensures Decode(a).Ok? ==> Decode(a) == Decode(b)
  {
    hide Collect, Relevant, Finish;
    var fa, fb := SplitOn(a, ';')[1..], SplitOn(b, ';')[1..];
    CollectIffConsistent(fa);
    CollectIffConsistent(fb);
    if Collect(fa).Ok? {
      SameFieldsSameSlots(Collect(fa).value, Collect(fb).value, Relevant(fa));
    }
  }

  lemma {:induction false} RelevantCounts(fields: seq<string>, f: string)
    ensures Relevant(fields)[f] == if Matters(f) then multiset(fields)[f] else 0
  {
    if fields != [] {
      RelevantCounts(fields[..|fields| - 1], f);
      assert fields == fields[..|fields| - 1] + [fields[|fields| - 1]];
    }
  }

  /** Permuting fields, and adding fields with unknown keys, leaves what they say unchanged. */
  lemma PermutationSaysTheSame(a: seq<string>, b: seq<string>, extra: seq<string>)
    requires multiset(b) == multiset(a) + multiset(extra)
    requires forall i :: 0 <= i < |extra| ==> ParseField(extra[i]) == Ok(Unknown)
    ensures Relevant(a) == Relevant(b)
  {
    forall f
      ensures Relevant(a)[f] == Relevant(b)[f]
    {
      RelevantCounts(a, f);
      RelevantCounts(b, f);
      if f in multiset(extra) {
        assert f in extra;
      }
    }
  }

  /** Said of whole inputs: any reordering of the fields after the prefix, with any unknown fields added. */
  lemma ReorderedInputDecodesAlike(prefix: string, fields: seq<string>, extra: seq<string>, shuffled: seq<string>)
    requires ';' !in prefix && multiset(shuffled) == multiset(fields) + multiset(extra)
    requires forall f :: f in fields || f in shuffled ==> ';' !in f
    requires forall i :: 0 <= i < |extra| ==> ParseField(extra[i]) == Ok(Unknown)
    ensures var a, b := Decode(JoinWith([prefix] + fields, ';')), Decode(JoinWith([prefix] + shuffled, ';'));
            (a.Ok? <==> b.Ok?) && (a.Ok? ==> a == b)
  {
    hide ParseField, Decode, Relevant, SplitOn, JoinWith;
    SplitJoined([prefix] + fields, ';');
    SplitJoined([prefix] + shuffled, ';');
    assert ([prefix] + fields)[1..] == fields && ([prefix] + shuffled)[1..] == shuffled;
    PermutationSaysTheSame(fields, shuffled, extra);
    FieldOrderIsIrrelevant(JoinWith([prefix] + fields, ';'), JoinWith([prefix] + shuffled, ';'));
  }
}
