/** The categorization engine's `normalizeText`: lower-case the text, decompose
    it (NFD), drop the combining diacritical marks U+0300–U+036F, replace `đ`
    by `d`, and trim JavaScript white space from both ends. Case mapping and
    decomposition are modelled for the letters the engine's keyword table and
    Vietnamese text use: ASCII, Latin-1 and the Vietnamese letters of Latin
    Extended-A/B and Latin Extended Additional. */
module Text {

  predicate IsCombiningMark(c: char)
  {
    '\U{300}' <= c <= '\U{36F}'
  }

  /** `String.prototype.trim`'s WhiteSpace and LineTerminator characters. */
  predicate IsJsWhitespace(c: char)
  {
    c == '\t' || c == '\n' || c == '\U{B}' || c == '\U{C}' || c == '\r' || c == ' '
    || c == '\U{A0}' || c == '\U{1680}' || ('\U{2000}' <= c <= '\U{200A}')
    || c == '\U{2028}' || c == '\U{2029}' || c == '\U{202F}' || c == '\U{205F}'
    || c == '\U{3000}' || c == '\U{FEFF}'
  }

  /** Upper-case letters `toLowerCase` maps, within the modelled repertoire. */
  predicate IsUpper(c: char)
  {
    ('A' <= c <= 'Z')
    || ('\U{C0}' <= c <= '\U{DE}' && c != '\U{D7}')
    || c == '\U{102}' || c == '\U{110}' || c == '\U{128}' || c == '\U{168}'
    || c == '\U{1A0}' || c == '\U{1AF}'
    || ('\U{1EA0}' <= c <= '\U{1EF8}' && (c as int) % 2 == 0)
  }

  /** `toLowerCase` on one character. */
  function LowerChar(c: char): (l: char)
    ensures !IsUpper(l)
    ensures !IsUpper(c) ==> l == c
  {
    if 'A' <= c <= 'Z' || ('\U{C0}' <= c <= '\U{DE}' && c != '\U{D7}') then
      (c as int + 32) as char
    else if IsUpper(c) then
      (c as int + 1) as char
    else c
  }

  /** The base letters NFD leaves once the marks are dropped. */
  predicate IsBaseLetter(b: char)
  {
    b == 'a' || b == 'c' || b == 'e' || b == 'i' || b == 'n' || b == 'o' || b == 'u' || b == 'y'
  }

  /** The base letter of a precomposed lower-case letter whose NFD is that
      letter followed by combining marks only; any other character is
      returned unchanged. */
  function BaseLetter(c: char): (b: char)
    ensures b == c || IsBaseLetter(b)
  {
    if c < 'à' || 'ỹ' < c then c
    else match c
    case 'à' | 'á' | 'â' | 'ã' | 'ä' | 'å' | 'ă' | 'ằ' | 'ắ' | 'ẳ' | 'ẵ' | 'ặ'
       | 'ầ' | 'ấ' | 'ẩ' | 'ẫ' | 'ậ' | 'ả' | 'ạ' => 'a'
    case 'ç' => 'c'
    case 'è' | 'é' | 'ê' | 'ë' | 'ề' | 'ế' | 'ể' | 'ễ' | 'ệ' | 'ẻ' | 'ẽ' | 'ẹ' => 'e'
    case 'ì' | 'í' | 'î' | 'ï' | 'ĩ' | 'ỉ' | 'ị' => 'i'
    case 'ñ' => 'n'
    case 'ò' | 'ó' | 'ô' | 'õ' | 'ö' | 'ơ' | 'ờ' | 'ớ' | 'ở' | 'ỡ' | 'ợ'
       | 'ồ' | 'ố' | 'ổ' | 'ỗ' | 'ộ' | 'ỏ' | 'ọ' => 'o'
    case 'ù' | 'ú' | 'û' | 'ü' | 'ũ' | 'ư' | 'ừ' | 'ứ' | 'ử' | 'ữ' | 'ự' | 'ủ' | 'ụ' => 'u'
    case 'ý' | 'ÿ' | 'ỳ' | 'ỷ' | 'ỹ' | 'ỵ' => 'y'
    case _ => c
  }

  /** What `normalizeText` makes of one character before trimming: nothing
      for a combining mark, otherwise one character. */
  function FoldChar(c: char): (r: string)
    ensures |r| <= 1
    ensures |r| == 0 <==> IsCombiningMark(LowerChar(c))
  {
    var l := LowerChar(c);
    if IsCombiningMark(l) then []
    else
      var b := BaseLetter(l);
      if b == 'đ' then ['d'] else [b]
  }

  lemma WhitespaceFolds(c: char)
    requires IsJsWhitespace(c)
    ensures FoldChar(c) == [c]
  {
  }

  /** A folded character is its own fold. */
  predicate IsFolded(c: char)
  {
    FoldChar(c) == [c]
  }

  lemma FoldCharFolded(c: char)
    ensures forall i :: 0 <= i < |FoldChar(c)| ==> IsFolded(FoldChar(c)[i])
  {
    var l := LowerChar(c);
    if !IsCombiningMark(l) {
      var b := BaseLetter(l);
      if b == 'đ' {
        assert IsFolded('d');
      } else if b != l {
        BaseLetterFolded(b);
      }
    }
  }

  lemma BaseLetterFolded(b: char)
    requires IsBaseLetter(b)
    ensures IsFolded(b)
  {
    assert !IsUpper(b) && !IsCombiningMark(b) && BaseLetter(b) == b;
  }

  function Fold(s: string): (r: string)
    ensures |r| <= |s|
    ensures forall i :: 0 <= i < |r| ==> IsFolded(r[i])
  {
    if |s| == 0 then []
    else
      FoldCharFolded(s[0]);
      FoldChar(s[0]) + Fold(s[1..])
  }

  lemma {:induction false} FoldConcat(s: string, t: string)
    ensures Fold(s + t) == Fold(s) + Fold(t)
    decreases |s|
  {
    if |s| > 0 {
      assert (s + t)[0] == s[0];
      assert (s + t)[1..] == s[1..] + t;
      FoldConcat(s[1..], t);
    } else {
      assert s + t == t;
    }
  }

  /** Folding leaves folded text unchanged. */
  lemma {:induction false} FoldOfFolded(s: string)
    requires forall i :: 0 <= i < |s| ==> IsFolded(s[i])
    ensures Fold(s) == s
    decreases |s|
  {
    if |s| > 0 {
      FoldOfFolded(s[1..]);
    }
  }

  function TrimStart(s: string): (r: string)
    ensures |r| <= |s| && r == s[|s| - |r|..]
    ensures |r| == 0 || !IsJsWhitespace(r[0])
    ensures forall i :: 0 <= i < |s| - |r| ==> IsJsWhitespace(s[i])
  {
    if |s| > 0 && IsJsWhitespace(s[0]) then TrimStart(s[1..]) else s
  }

  function TrimEnd(s: string): (r: string)
    ensures |r| <= |s| && r == s[..|r|]
    ensures |r| == 0 || !IsJsWhitespace(r[|r| - 1])
    ensures forall i :: |r| <= i < |s| ==> IsJsWhitespace(s[i])
  {
    if |s| > 0 && IsJsWhitespace(s[|s| - 1]) then TrimEnd(s[..|s| - 1]) else s
  }

  /** `String.prototype.trim`: the text between the first and the last
      character that is not white space. */
  function Trim(s: string): (r: string)
    ensures exists i, j :: 0 <= i <= j <= |s| && r == s[i..j]
             && (forall k :: 0 <= k < i ==> IsJsWhitespace(s[k]))
             && (forall k :: j <= k < |s| ==> IsJsWhitespace(s[k]))
    ensures |r| == 0 || (!IsJsWhitespace(r[0]) && !IsJsWhitespace(r[|r| - 1]))
  {
    var t := TrimStart(s);
    var r := TrimEnd(t);
    var i := |s| - |t|;
    assert r == s[i..i + |r|];
    r
  }

  function Normalize(s: string): string
  {
    Trim(Fold(s))
  }

  /** Text with no white space at either end is its own trim. */
  lemma TrimOfTrimmed(s: string)
    requires |s| == 0 || (!IsJsWhitespace(s[0]) && !IsJsWhitespace(s[|s| - 1]))
    ensures Trim(s) == s
  {
  }

  lemma {:induction false} TrimStartPadding(w: string, s: string)
    requires forall k :: 0 <= k < |w| ==> IsJsWhitespace(w[k])
    ensures TrimStart(w + s) == TrimStart(s)
    decreases |w|
  {
    if |w| > 0 {
      assert (w + s)[1..] == w[1..] + s;
      TrimStartPadding(w[1..], s);
    } else {
      assert w + s == s;
    }
  }

  lemma {:induction false} TrimEndPadding(s: string, w: string)
    requires forall k :: 0 <= k < |w| ==> IsJsWhitespace(w[k])
    ensures TrimEnd(s + w) == TrimEnd(s)
    decreases |w|
  {
    if |w| > 0 {
      assert (s + w)[..|s + w| - 1] == s + w[..|w| - 1];
      TrimEndPadding(s, w[..|w| - 1]);
    } else {
      assert s + w == s;
    }
  }

  lemma TrimStartOfSuffix(s: string, w: string)
    requires forall k :: 0 <= k < |w| ==> IsJsWhitespace(w[k])
    ensures TrimStart(s + w) == TrimStart(s) + w || (TrimStart(s) == [] && TrimStart(s + w) == [])
    decreases |s|
  {
    if |s| > 0 {
      assert (s + w)[1..] == s[1..] + w;
      TrimStartOfSuffix(s[1..], w);
    } else {
      assert s + w == w;
      TrimStartAll(w);
    }
  }

  lemma {:induction false} TrimStartAll(w: string)
    requires forall k :: 0 <= k < |w| ==> IsJsWhitespace(w[k])
    ensures TrimStart(w) == []
    decreases |w|
  {
    if |w| > 0 {
      TrimStartAll(w[1..]);
    }
  }

  lemma TrimEndAll(w: string)
    requires forall k :: 0 <= k < |w| ==> IsJsWhitespace(w[k])
    ensures TrimEnd(w) == []
  {
  }

  /** White space around a text does not change its trim. */
  lemma TrimPadding(w1: string, s: string, w2: string)
    requires forall k :: 0 <= k < |w1| ==> IsJsWhitespace(w1[k])
    requires forall k :: 0 <= k < |w2| ==> IsJsWhitespace(w2[k])
    ensures Trim(w1 + s + w2) == Trim(s)
  {
    assert w1 + s + w2 == w1 + (s + w2);
    TrimStartPadding(w1, s + w2);
    TrimStartOfSuffix(s, w2);
    if TrimStart(s) == [] {
      TrimEndAll(TrimStart(s + w2));
    } else {
      TrimEndPadding(TrimStart(s), w2);
    }
  }

  /** Normalizing twice is normalizing once. */
  lemma NormalizeIdempotent(s: string)
    ensures Normalize(Normalize(s)) == Normalize(s)
  {
    var f := Fold(s);
    var t := Trim(f);
    TrimChars(f);
    FoldOfFolded(t);
    TrimOfTrimmed(t);
  }

  /** Every character of a trim is a character of the text, at an offset. */
  lemma TrimChars(s: string)
    ensures forall k :: 0 <= k < |Trim(s)| ==> Trim(s)[k] == s[|s| - |TrimStart(s)| + k]
  {
  }

  /** White space around a description does not change its normal form. */
  lemma NormalizeIgnoresPadding(w1: string, s: string, w2: string)
    requires forall k :: 0 <= k < |w1| ==> IsJsWhitespace(w1[k])
    requires forall k :: 0 <= k < |w2| ==> IsJsWhitespace(w2[k])
    ensures Normalize(w1 + s + w2) == Normalize(s)
  {
    FoldConcat(w1 + s, w2);
    FoldConcat(w1, s);
    FoldOfWhitespace(w1);
    FoldOfWhitespace(w2);
    TrimPadding(w1, Fold(s), w2);
  }

  lemma {:induction false} FoldOfWhitespace(w: string)
    requires forall k :: 0 <= k < |w| ==> IsJsWhitespace(w[k])
    ensures Fold(w) == w
    decreases |w|
  {
    if |w| > 0 {
      WhitespaceFolds(w[0]);
      FoldOfWhitespace(w[1..]);
    }
  }

  /** `toLowerCase` over a whole text. */
  function Lower(s: string): (r: string)
    ensures |r| == |s|
    ensures forall i :: 0 <= i < |s| ==> r[i] == LowerChar(s[i])
  {
    seq(|s|, i requires 0 <= i < |s| => LowerChar(s[i]))
  }

  /** Normalization does not see letter case. */
  lemma {:induction false} FoldIgnoresCase(s: string)
    ensures Fold(Lower(s)) == Fold(s)
    decreases |s|
  {
    if |s| > 0 {
      assert Lower(s)[1..] == Lower(s[1..]);
      FoldIgnoresCase(s[1..]);
    }
  }

  lemma NormalizeIgnoresCase(s: string)
    ensures Normalize(Lower(s)) == Normalize(s)
  {
    FoldIgnoresCase(s);
  }

  /** `s.includes(t)`: t occurs in s at some position. */
  predicate Contains(s: string, t: string)
  {
    t <= s || (|s| > 0 && Contains(s[1..], t))
  }
}
