/** Strings are read as the grammar says: what the reader takes for one is the text of
    what it answers, and every text of one is taken so. */
module JsonStrings {
  import opened Wrappers
  import opened Numerals
  import opened JsonValues
  import opened JsonReading
  import opened JsonGrammar

  // ---- Hexadecimal -----------------------------------------------------------------

  lemma HexDigitIff(c: char, d: nat)
    ensures IsHexDigit(c, d) <==> HexValue(c) == Some(d)
  {
  }

  lemma DigitsIff(s: string, a: nat, b: nat, c: nat, d: nat)
    requires |s| == 4
    ensures AreDigits(s, a, b, c, d) <==>
      HexValue(s[0]) == Some(a) && HexValue(s[1]) == Some(b) && HexValue(s[2]) == Some(c) && HexValue(s[3]) == Some(d)
  {
    HexDigitIff(s[0], a);
    HexDigitIff(s[1], b);
    HexDigitIff(s[2], c);
    HexDigitIff(s[3], d);
  }

  /** Four characters are read as the number they are the digits of. */
  lemma UnitRead(s: string)
    requires ParseHex4(s).Got?
    ensures |s| >= 4 && ParseHex4(s).rest == s[4..] && IsUnit(s[..4], ParseHex4(s).value)
  {
    var t := s[..4];
    assert forall i | 0 <= i < 4 :: HexValue(s[i]).Some? && t[i] == s[i];
    DigitsIff(t, HexValue(s[0]).value, HexValue(s[1]).value, HexValue(s[2]).value, HexValue(s[3]).value);
  }

  lemma UnitReads(unit: string, n: nat, post: string)
    requires IsUnit(unit, n)
    ensures ParseHex4(unit + post) == Got(n, post)
  {
    var a: nat, b: nat, c: nat, d: nat :| AreDigits(unit, a, b, c, d) && n == a * 0x1000 + b * 0x100 + c * 16 + d;
    DigitsIff(unit, a, b, c, d);
    var s := unit + post;
    assert s[0] == unit[0] && s[1] == unit[1] && s[2] == unit[2] && s[3] == unit[3] && s[4..] == post;
  }

  // ---- Escapes -----------------------------------------------------------------------

  /** A `\u` and four digits, cut off. */
  lemma UnitPiece(s: string)
    requires ParseHex4(s).Got?
    ensures s == s[..4] + ParseHex4(s).rest && IsUnicodeEscape("\\u" + s[..4], ParseHex4(s).value)
  {
    UnitRead(s);
    assert ("\\u" + s[..4])[2..] == s[..4];
  }

  lemma PairPiece(c: char, high: nat, low: nat, first: string, second: string)
    requires AreSurrogates(c, high, low) && IsUnicodeEscape(first, high) && IsUnicodeEscape(second, low)
    ensures IsPair(first + second, c)
  {
    assert (first + second)[..6] == first && (first + second)[6..] == second;
  }

  /** What a `\u` is read as is what it stands for. */
  lemma UnicodeRead(s: string) returns (piece: string)
    requires ParseUnicode(s).Got?
    ensures "\\u" + s == piece + ParseUnicode(s).rest
    ensures IsUnicodeEscape(piece, ParseUnicode(s).value as int) || IsPair(piece, ParseUnicode(s).value)
  {
    var first := ParseHex4(s);
    UnitPiece(s);
    piece := "\\u" + s[..4];
    if 0xD800 <= first.value <= 0xDBFF {
      var next := first.rest[2..];
      var second := ParseHex4(next);
      UnitPiece(next);
      assert first.rest == "\\u" + next;
      PairPiece(ParseUnicode(s).value, first.value, second.value, piece, "\\u" + next[..4]);
      piece := piece + ("\\u" + next[..4]);
    }
  }

  lemma EscapeRead(s: string) returns (piece: string)
    requires ParseEscape(s).Got?
    ensures "\\" + s == piece + ParseEscape(s).rest && IsCharText(piece, ParseEscape(s).value)
  {
    if s[0] == 'u' {
      piece := UnicodeRead(s[1..]);
      assert "\\" + s == "\\u" + s[1..];
    } else {
      piece := "\\" + [s[0]];
      assert "\\" + s == piece + s[1..];
    }
  }

  lemma ShortEscapeReads(piece: string, c: char, post: string)
    requires IsShortEscape(piece, c)
    ensures ParseEscape(piece[1..] + post) == Got(c, post)
  {
    assert (piece[1..] + post)[0] == piece[1] && (piece[1..] + post)[1..] == post;
  }

  lemma UnicodeEscapeReads(piece: string, c: char, post: string)
    requires IsUnicodeEscape(piece, c as int)
    ensures ParseEscape(piece[1..] + post) == Got(c, post)
  {
    assert (piece[1..] + post)[1..] == piece[2..] + post;
    UnitReads(piece[2..], c as int, post);
  }

  lemma SurrogatesRead(c: char, high: nat, low: nat, f: string, g: string, post: string)
    requires AreSurrogates(c, high, low) && IsUnit(f, high) && IsUnit(g, low)
    ensures ParseUnicode(f + ("\\u" + (g + post))) == Got(c, post)
  {
    UnitReads(f, high, "\\u" + (g + post));
    assert ("\\u" + (g + post))[2..] == g + post;
    UnitReads(g, low, post);
  }

  lemma TwoEscapes(piece: string, post: string)
    requires |piece| == 12 && piece[0] == '\\' && piece[1] == 'u' && piece[6] == '\\' && piece[7] == 'u'
    ensures piece[1..] + post == "u" + (piece[..6][2..] + ("\\u" + (piece[6..][2..] + post)))
  {
  }

  lemma PairReads(piece: string, c: char, post: string)
    requires IsPair(piece, c)
    ensures ParseEscape(piece[1..] + post) == Got(c, post)
  {
    var first, second := piece[..6], piece[6..];
    var high: nat, low: nat :| AreSurrogates(c, high, low) && IsUnicodeEscape(first, high) && IsUnicodeEscape(second, low);
    SurrogatesRead(c, high, low, first[2..], second[2..], post);
    TwoEscapes(piece, post);
    var s := first[2..] + ("\\u" + (second[2..] + post));
    assert ("u" + s)[1..] == s;
  }

  /** Every text of a character is read as that character. */
  lemma CharTextReads(piece: string, c: char, post: string, out: string)
    requires IsCharText(piece, c)
    ensures ParseChars(piece + post, out) == ParseChars(post, out + [c])
  {
    if piece == [c] && c >= ' ' && c != '"' && c != '\\' {
      assert (piece + post)[1..] == post;
    } else {
      assert piece[0] == '\\' && (piece + post)[1..] == piece[1..] + post;
      if IsShortEscape(piece, c) {
        ShortEscapeReads(piece, c, post);
      } else if IsUnicodeEscape(piece, c as int) {
        UnicodeEscapeReads(piece, c, post);
      } else {
        PairReads(piece, c, post);
      }
    }
  }

  // ---- Whole strings --------------------------------------------------------------------

  /** One character is read off. */
  lemma CharRead(s: string, out: string) returns (piece: string, c: char, rest: string)
    requires s != "" && s[0] != '"' && ParseChars(s, out).Got?
    ensures s == piece + rest && IsCharText(piece, c) && |rest| < |s|
    ensures ParseChars(s, out) == ParseChars(rest, out + [c])
  {
    if s[0] == '\\' {
      var escape := ParseEscape(s[1..]);
      piece := EscapeRead(s[1..]);
      c, rest := escape.value, escape.rest;
      assert s == "\\" + s[1..];
    } else {
      piece, c, rest := [s[0]], s[0], s[1..];
    }
  }

  lemma OneMoreChar(piece: string, c: char, body: string, text: string)
    requires IsCharText(piece, c) && IsChars(body, text)
    ensures IsChars(piece + body, [c] + text)
  {
    assert ([c] + text)[1..] == text;
  }

  lemma OneMoreRead(piece: string, c: char, body: string, text: string, out: string, post: string)
    ensures piece + (body + ("\"" + post)) == (piece + body) + ("\"" + post)
    ensures out + [c] + text == out + ([c] + text)
  {
  }

  lemma {:induction false} CharsRead(s: string, out: string, value: string, post: string) returns (body: string, text: string)
    requires ParseChars(s, out) == Got(value, post)
    ensures value == out + text && IsChars(body, text) && s == body + ("\"" + post)
    decreases |s|
  {
    if s[0] == '"' {
      body, text := "", "";
    } else {
      var piece, c, rest := CharRead(s, out);
      var b, t := CharsRead(rest, out + [c], value, post);
      OneMoreChar(piece, c, b, t);
      OneMoreRead(piece, c, b, t, out, post);
      body, text := piece + b, [c] + t;
    }
  }

  lemma {:induction false} CharsReads(body: string, text: string, post: string, out: string)
    requires IsChars(body, text)
    ensures ParseChars(body + ("\"" + post), out) == Got(out + text, post)
    decreases |text|
  {
    if text == "" {
      assert body + ("\"" + post) == "\"" + post && out + text == out;
    } else {
      var piece, rest :| body == piece + rest && IsCharText(piece, text[0]) && IsChars(rest, text[1..]);
      CharTextReads(piece, text[0], rest + ("\"" + post), out);
      CharsReads(rest, text[1..], post, out + [text[0]]);
      OneMoreRead(piece, text[0], rest, text[1..], out, post);
      assert text == [text[0]] + text[1..];
    }
  }

  /** A string is read exactly when it is the text of one, as what it is the text of. */
  lemma StringRead(s: string) returns (text: string)
    requires StartsWith(s, '"') && ParseChars(s[1..], "").Got?
    ensures IsString(text, ParseChars(s[1..], "").value) && s == text + ParseChars(s[1..], "").rest
  {
    var r := ParseChars(s[1..], "");
    var body, value := CharsRead(s[1..], "", r.value, r.rest);
    assert "" + value == value;
    text := "\"" + (body + "\"");
    assert text[1..|text| - 1] == body;
  }

  lemma StringReads(text: string, value: string, post: string)
    requires IsString(text, value)
    ensures StartsWith(text + post, '"') && ParseChars((text + post)[1..], "") == Got(value, post)
  {
    var body := text[1..|text| - 1];
    assert (text + post)[1..] == body + ("\"" + post);
    CharsReads(body, value, post, "");
    assert "" + value == value;
  }
}
