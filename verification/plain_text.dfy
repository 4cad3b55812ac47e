/** Plain-text limits: UTF-16 strings measured by the length of their UTF-8 encoding. */
module PlainText {
  import opened Common

  type Unit = u: nat | u < 0x1_0000
  type Byte = b: nat | b < 0x100

  /** A Unicode scalar value: a code point that is not a surrogate. */
  type Scalar = c: nat | c <= 0x10_FFFF && !(0xD800 <= c <= 0xDFFF)

  predicate High(u: Unit) {
    0xD800 <= u <= 0xDBFF
  }

  predicate Low(u: Unit) {
    0xDC00 <= u <= 0xDFFF
  }

  /** UTF-16, section 2.1 of RFC 2781. */
  function EncodeUtf16(cs: seq<Scalar>): seq<Unit> {
    if cs == [] then [] else Utf16Of(cs[0]) + EncodeUtf16(cs[1..])
  }

  function Utf16Of(c: Scalar): seq<Unit> {
    if c < 0x1_0000 then [c]
    else [0xD800 + (c - 0x1_0000) / 0x400, 0xDC00 + (c - 0x1_0000) % 0x400]
  }

  /** UTF-8, section 3 of RFC 3629. */
  function EncodeUtf8(cs: seq<Scalar>): seq<Byte> {
    if cs == [] then [] else Utf8Of(cs[0]) + EncodeUtf8(cs[1..])
  }

  function Utf8Of(c: Scalar): seq<Byte> {
    if c < 0x80 then [c]
    else if c < 0x800 then [0xC0 + c / 0x40, 0x80 + c % 0x40]
    else if c < 0x1_0000 then [0xE0 + c / 0x1000, 0x80 + c / 0x40 % 0x40, 0x80 + c % 0x40]
    else [0xF0 + c / 0x4_0000, 0x80 + c / 0x1000 % 0x40, 0x80 + c / 0x40 % 0x40, 0x80 + c % 0x40]
  }

  /** A high surrogate not followed by a low one, or a low one not preceded by a high one. */
  predicate LoneAt(s: seq<Unit>, i: nat)
    requires i < |s|
  {
    || (High(s[i]) && !(i + 1 < |s| && Low(s[i + 1])))
    || (Low(s[i]) && !(i > 0 && High(s[i - 1])))
  }

  predicate HasLoneSurrogate(s: seq<Unit>) {
    exists i :: 0 <= i < |s| && LoneAt(s, i)
  }

  /** The scalar values behind a string without lone surrogates. */
  function Decode(s: seq<Unit>): seq<Scalar>
    requires !HasLoneSurrogate(s)
  {
    if s == [] then []
    else
      assert !LoneAt(s, 0);
      if High(s[0]) then
        TailHasNoLone(s, 2);
        var offset: int := (s[0] as int - 0xD800) * 0x400 + (s[1] as int - 0xDC00);
        [0x1_0000 + offset] + Decode(s[2..])
      else
        TailHasNoLone(s, 1);
        [s[0]] + Decode(s[1..])
  }

  lemma TailHasNoLone(s: seq<Unit>, n: nat)
    requires 1 <= n <= |s| && !HasLoneSurrogate(s) && !High(s[n - 1])
    ensures !HasLoneSurrogate(s[n..])
  {
    forall i | 0 <= i < |s| - n ensures !LoneAt(s[n..], i) {
      assert !LoneAt(s, i + n);
    }
  }

  lemma {:induction false} DecodeRestores(s: seq<Unit>)
    requires !HasLoneSurrogate(s)
    ensures EncodeUtf16(Decode(s)) == s
  {
    if s != [] {
      assert !LoneAt(s, 0);
      var n := if High(s[0]) then 2 else 1;
      if n == 2 {
        assert !LoneAt(s, 1);
      }
      TailHasNoLone(s, n);
      DecodeRestores(s[n..]);
      assert Decode(s)[1..] == Decode(s[n..]);
      assert s == s[..n] + s[n..];
    }
  }

  lemma {:induction false} EncodingHasNoLone(cs: seq<Scalar>)
    ensures !HasLoneSurrogate(EncodeUtf16(cs))
  {
    if cs != [] {
      EncodingHasNoLone(cs[1..]);
      var head, tail := Utf16Of(cs[0]), EncodeUtf16(cs[1..]);
      var s := head + tail;
      assert tail != [] ==> !LoneAt(tail, 0);
      forall i | 0 <= i < |s| ensures !LoneAt(s, i) {
        if i >= |head| {
          assert !LoneAt(tail, i - |head|);
        }
      }
    }
  }

  /** The surrogate test accepts exactly the UTF-16 encodings of scalar values. */
  lemma NoLoneIffUtf16(s: seq<Unit>)
    ensures !HasLoneSurrogate(s) <==> exists cs :: EncodeUtf16(cs) == s
  {
    if !HasLoneSurrogate(s) {
      DecodeRestores(s);
    }
    forall cs | EncodeUtf16(cs) == s ensures !HasLoneSurrogate(s) {
      EncodingHasNoLone(cs);
    }
  }

  /** What the counting loop adds up, on any string. A high surrogate swallows the next unit. */
  function ByteCount(s: seq<Unit>): nat
    decreases |s|
  {
    if s == [] then 0
    else if s[0] < 0x80 then 1 + ByteCount(s[1..])
    else if s[0] < 0x800 then 2 + ByteCount(s[1..])
    else if High(s[0]) then 4 + ByteCount(if |s| > 1 then s[2..] else [])
    else 3 + ByteCount(s[1..])
  }

  method Utf8ByteLength(value: seq<Unit>) returns (bytes: nat)
    ensures bytes == ByteCount(value)
  {
    bytes := 0;
    var i := 0;
    while i < |value|
      invariant i <= |value| + 1
      invariant bytes + ByteCount(if i <= |value| then value[i..] else []) == ByteCount(value)
    {
      var code := value[i];
      if code < 0x80 {
        bytes := bytes + 1;
      } else if code < 0x800 {
        bytes := bytes + 2;
      } else if 0xD800 <= code <= 0xDBFF {
        bytes := bytes + 4;
        assert i + 2 <= |value| ==> value[i..][2..] == value[i + 2..];
        i := i + 1;
      } else {
        bytes := bytes + 3;
      }
      assert i < |value| ==> value[i..][1..] == value[i + 1..];
      i := i + 1;
    }
  }

  /** On UTF-16 encodings the loop counts exactly the bytes of the UTF-8 encoding. */
  lemma {:induction false} ByteCountIsUtf8Length(cs: seq<Scalar>)
    ensures ByteCount(EncodeUtf16(cs)) == |EncodeUtf8(cs)|
  {
    if cs != [] {
      ByteCountIsUtf8Length(cs[1..]);
      var head, tail := Utf16Of(cs[0]), EncodeUtf16(cs[1..]);
      assert (head + tail)[|head|..] == tail;
    }
  }

  /** Behind a well-formed string the count is additive, whatever follows it. */
  lemma {:induction false} ByteCountAdditive(cs: seq<Scalar>, t: seq<Unit>)
    ensures ByteCount(EncodeUtf16(cs) + t) == ByteCount(EncodeUtf16(cs)) + ByteCount(t)
  {
    if cs == [] {
      assert EncodeUtf16(cs) + t == t;
    } else {
      ByteCountAdditive(cs[1..], t);
      var head, tail := Utf16Of(cs[0]), EncodeUtf16(cs[1..]);
      assert head + tail + t == head + (tail + t);
      assert (head + (tail + t))[|head|..] == tail + t;
      assert (head + tail)[|head|..] == tail;
    }
  }

  /** The loop, run over the string, ends on a high surrogate with nothing behind it. */
  predicate Dangles(s: seq<Unit>) {
    s != [] && if High(s[0]) then |s| == 1 || Dangles(s[2..]) else Dangles(s[1..])
  }

  lemma {:induction false} AdditiveUnlessDangling(s: seq<Unit>, t: seq<Unit>)
    requires !Dangles(s)
    ensures ByteCount(s + t) == ByteCount(s) + ByteCount(t)
  {
    if s == [] {
      assert s + t == t;
    } else {
      var n := if High(s[0]) then 2 else 1;
      AdditiveUnlessDangling(s[n..], t);
      assert (s + t)[n..] == s[n..] + t;
    }
  }

  /** A dangling high surrogate swallows the next unit, whatever it is. */
  lemma {:induction false} DanglingSwallows(s: seq<Unit>, u: Unit)
    requires Dangles(s)
    ensures ByteCount(s + [u]) == ByteCount(s)
  {
    var n := if High(s[0]) then 2 else 1;
    if |s| == 1 {
      assert s + [u] == [s[0], u];
      assert (s + [u])[2..] == [];
    } else {
      DanglingSwallows(s[n..], u);
      assert (s + [u])[n..] == s[n..] + [u];
    }
  }

  /** The count is additive behind a string exactly when the string does not dangle, well-formed or not. */
  lemma ByteCountAdditiveIff(s: seq<Unit>)
    ensures (forall t :: ByteCount(s + t) == ByteCount(s) + ByteCount(t)) <==> !Dangles(s)
  {
    if Dangles(s) {
      DanglingSwallows(s, 0x41);
      var t: seq<Unit> := [0x41];
      assert ByteCount(t) == 1;
      assert ByteCount(s + t) != ByteCount(s) + ByteCount(t);
    } else {
      forall t ensures ByteCount(s + t) == ByteCount(s) + ByteCount(t) {
        AdditiveUnlessDangling(s, t);
      }
    }
  }

  /** A surrogate pair cut in half counts more than the pair. */
  lemma CutPairCountsMore(high: Unit, low: Unit)
    requires High(high) && Low(low)
    ensures Dangles([high]) && !HasLoneSurrogate([high, low])
    ensures ByteCount([high] + [low]) == 4 && ByteCount([high]) + ByteCount([low]) == 7
  {
    assert [high] + [low] == [high, low];
    assert [high, low][2..] == [] && [low][1..] == [];
  }

  /** So it is not additive on all strings. */
  lemma ByteCountNotAdditive()
    ensures var s: seq<Unit>, t: seq<Unit> := [0xD83D], [0xDE00];
      !HasLoneSurrogate(s + t) && ByteCount(s + t) < ByteCount(s) + ByteCount(t)
  {
    CutPairCountsMore(0xD83D, 0xDE00);
    var s: seq<Unit>, t: seq<Unit> := [0xD83D], [0xDE00];
    assert s + t == [0xD83D, 0xDE00];
  }

  datatype TextError = InvalidPlainText | ContentTooLarge

  method ValidateRoomPlainText(value: seq<Unit>, limitBytes: nat) returns (r: Result<seq<Unit>, TextError>)
    ensures r.Ok? ==> r.value == value
    ensures r.Ok? <==> 0 !in value && exists cs :: EncodeUtf16(cs) == value && |EncodeUtf8(cs)| <= limitBytes
    ensures r == Err(InvalidPlainText) <==> 0 in value || forall cs :: EncodeUtf16(cs) != value
  {
    NoLoneIffUtf16(value);
    if 0 in value || HasLoneSurrogate(value) {
      return Err(InvalidPlainText);
    }
    var bytes := Utf8ByteLength(value);
    assert EncodeUtf16(Decode(value)) == value by {
      DecodeRestores(value);
    }
    forall cs | EncodeUtf16(cs) == value ensures |EncodeUtf8(cs)| == bytes {
      ByteCountIsUtf8Length(cs);
    }
    if bytes > limitBytes {
      return Err(ContentTooLarge);
    }
    return Ok(value);
  }
}
