/** Memo keys: the function's runtime name followed by "_" and the %v text of
    each parameter (createParameterHash), and for the in-process stores the
    lowercase hexadecimal SHA-256 digest of that string (createHash). */
module Keys {
  import opened GoModel

  /** The byte of "_". */
  const Underscore: byte := 0x5F

  /** The lowercase Base16 alphabet that encoding/hex writes. */
  const HexDigits: GoString := [0x30, 0x31, 0x32, 0x33, 0x34, 0x35, 0x36, 0x37,
                                0x38, 0x39, 0x61, 0x62, 0x63, 0x64, 0x65, 0x66]

  /** A SHA-256 digest is 32 bytes long. */
  type Digest = d: seq<byte> | |d| == 32 witness seq(32, _ => 0)

  /** What the builder appends for the parameters, in order: "_" + text(p)
      for each p, where text stands for fmt's %v. */
  function Suffixes<P>(params: seq<P>, text: P -> GoString): GoString
    decreases |params|
  {
    if params == [] then []
    else Suffixes(params[..|params| - 1], text) + [Underscore] + text(params[|params| - 1])
  }

  /** The unhashed key: the function name, then the parameters' suffixes. */
  function ParameterString<P>(fnName: GoString, params: seq<P>, text: P -> GoString): GoString {
    fnName + Suffixes(params, text)
  }

  /** The strings.Builder loop of createParameterHash. */
  method BuildParameterString<P>(fnName: GoString, params: seq<P>, text: P -> GoString)
    returns (s: GoString)
    ensures s == ParameterString(fnName, params, text)
  {
    s := fnName;
    for i := 0 to |params|
      invariant s == fnName + Suffixes(params[..i], text)
    {
      assert params[..i + 1][..i] == params[..i];
      s := s + [Underscore] + text(params[i]);
    }
    assert params[..|params|] == params;
  }

  /** With no parameters the key is the function name exactly. */
  lemma ParameterStringNoParams<P>(fnName: GoString, text: P -> GoString)
    ensures ParameterString(fnName, [], text) == fnName
  {
  }

  /** Parameters are written in positional order: the first parameter's
      text comes right after the name, followed by the rest. */
  lemma {:induction false} SuffixesCons<P>(p: P, params: seq<P>, text: P -> GoString)
    ensures Suffixes([p] + params, text) == [Underscore] + text(p) + Suffixes(params, text)
    decreases |params|
  {
    if params != [] {
      var init := params[..|params| - 1];
      assert ([p] + params)[..|params|] == [p] + init;
      SuffixesCons(p, init, text);
    }
  }

  /** The key's length: the name, plus one separator and the text of each parameter. */
  function SuffixLength<P>(params: seq<P>, text: P -> GoString): nat
    decreases |params|
  {
    if params == [] then 0
    else SuffixLength(params[..|params| - 1], text) + 1 + |text(params[|params| - 1])|
  }

  lemma {:induction false} ParameterStringLength<P>(fnName: GoString, params: seq<P>, text: P -> GoString)
    ensures |ParameterString(fnName, params, text)| == |fnName| + SuffixLength(params, text)
    decreases |params|
  {
    if params != [] {
      ParameterStringLength(fnName, params[..|params| - 1], text);
    }
  }

  /** The separator is not escaped: a parameter whose text is a_b gives the
      same key as the two parameters a and b, so the two calls share one
      cache entry. */
  lemma SeparatorIsAmbiguous<P>(fnName: GoString, a: P, b: P, c: P, text: P -> GoString)
    requires text(c) == text(a) + [Underscore] + text(b)
    ensures ParameterString(fnName, [a, b], text) == ParameterString(fnName, [c], text)
  {
    assert [a, b][..1] == [a];
    assert [a][..0] == [] && [c][..0] == [];
    calc {
      Suffixes([a, b], text);
      Suffixes([a], text) + [Underscore] + text(b);
      [Underscore] + text(a) + [Underscore] + text(b);
      [Underscore] + text(c);
      Suffixes([c], text);
    }
  }

  /** encoding/hex EncodeToString: two lowercase digits per byte, high nibble first. */
  function HexEncode(b: seq<byte>): (r: GoString)
    ensures |r| == 2 * |b|
  {
    if b == [] then [] else [HexDigits[b[0] / 16], HexDigits[b[0] % 16]] + HexEncode(b[1..])
  }

  predicate IsLowerHex(s: GoString) {
    forall i | 0 <= i < |s| :: s[i] in HexDigits
  }

  /** The value of one Base16 digit; section 8 of RFC 4648 reads either case. */
  function HexValue(c: byte): Option<nat> {
    if 0x30 <= c <= 0x39 then Some(c - 0x30)
    else if 0x61 <= c <= 0x66 then Some(c - 0x61 + 10)
    else if 0x41 <= c <= 0x46 then Some(c - 0x41 + 10)
    else None
  }

  /** Base16 decoding (section 8 of RFC 4648): the reference inverse of HexEncode. */
  function HexDecode(s: GoString): Option<seq<byte>>
    decreases |s|
  {
    if s == [] then Some([])
    else if |s| == 1 then None
    else match (HexValue(s[0]), HexValue(s[1]), HexDecode(s[2..]))
      case (Some(hi), Some(lo), Some(rest)) => Some([hi * 16 + lo] + rest)
      case _ => None
  }

  /** Every digit HexEncode writes is in the lowercase alphabet. */
  lemma {:induction false} HexEncodeIsLowerHex(b: seq<byte>)
    ensures IsLowerHex(HexEncode(b))
    decreases |b|
  {
    if b != [] {
      HexEncodeIsLowerHex(b[1..]);
    }
  }

  /** Decoding what HexEncode wrote gives back the bytes, so HexEncode is injective. */
  lemma {:induction false} HexRoundTrip(b: seq<byte>)
    ensures HexDecode(HexEncode(b)) == Some(b)
    decreases |b|
  {
    if b != [] {
      var e := HexEncode(b);
      var hi, lo := b[0] / 16, b[0] % 16;
      assert e == [HexDigits[hi], HexDigits[lo]] + HexEncode(b[1..]);
      assert e[2..] == HexEncode(b[1..]);
      HexRoundTrip(b[1..]);
      DigitValue(hi);
      DigitValue(lo);
      assert hi * 16 + lo == b[0];
      assert [b[0]] + b[1..] == b;
    }
  }

  /** Reading back a digit of the alphabet gives its position. */
  lemma DigitValue(n: nat)
    requires n < 16
    ensures HexValue(HexDigits[n]) == Some(n)
  {
    if n < 10 {
      assert HexDigits[n] == 0x30 + n;
    } else {
      assert HexDigits[n] == 0x61 + n - 10;
    }
  }

  lemma HexEncodeInjective(a: seq<byte>, b: seq<byte>)
    requires HexEncode(a) == HexEncode(b)
    ensures a == b
  {
    HexRoundTrip(a);
    HexRoundTrip(b);
  }

  /** The key of the in-process stores: hex(sha256(ParameterString)). */
  function MemoKey<P>(fnName: GoString, params: seq<P>, text: P -> GoString,
                      sha256: GoString -> Digest): (k: GoString)
    ensures |k| == 64 && IsLowerHex(k)
  {
    var digest := sha256(ParameterString(fnName, params, text));
    HexEncodeIsLowerHex(digest);
    HexEncode(digest)
  }

  /** Two calls share a memo key exactly when the digests of their parameter
      strings agree; equal parameter strings always give equal keys. */
  lemma MemoKeyCollision<P>(f: GoString, ps: seq<P>, g: GoString, qs: seq<P>,
                            text: P -> GoString, sha256: GoString -> Digest)
    ensures MemoKey(f, ps, text, sha256) == MemoKey(g, qs, text, sha256)
        <==> sha256(ParameterString(f, ps, text)) == sha256(ParameterString(g, qs, text))
  {
    if MemoKey(f, ps, text, sha256) == MemoKey(g, qs, text, sha256) {
      HexEncodeInjective(sha256(ParameterString(f, ps, text)), sha256(ParameterString(g, qs, text)));
    }
  }

  /** createParameterHash of cache.go: build the parameter string, digest it, hex it. */
  method CreateParameterHash<P>(fnName: GoString, params: seq<P>, text: P -> GoString,
                                sha256: GoString -> Digest) returns (k: GoString)
    ensures k == MemoKey(fnName, params, text, sha256)
    ensures |k| == 64 && IsLowerHex(k)
  {
    var s := BuildParameterString(fnName, params, text);
    k := HexEncode(sha256(s));
  }

  /** createHash: the runtime name of fn (getFunctionName), then createParameterHash. */
  method CreateHash<P, T, E>(fn: Callable<P, T, E>, params: seq<P>, text: P -> GoString,
                             sha256: GoString -> Digest) returns (k: GoString)
    requires fn.Func?
    ensures k == MemoKey(fn.name, params, text, sha256)
  {
    k := CreateParameterHash(fn.name, params, text, sha256);
  }
}
