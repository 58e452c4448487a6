/** `model.StringArray` (`model/contact.go`): a contact's tags, stored in a
    text column as a JSON array of strings.  `Value` writes the array with
    the escaping of Go's `encoding/json`; `Scan` reads it back.  The
    column itself goes through GORM's JSON serializer (`Serialize`,
    `Deserialize`), which writes the same text except for a nil list. */
module StringArray {
  import opened Wrappers
  import opened Text

  /** What the database driver hands to `Scan`. */
  datatype DbValue = Null | Bytes(text: string) | OtherValue

  const ScanFailed := "failed to scan StringArray"
  /** Stands for every error `json.Unmarshal` reports (their texts are not
      modelled). */
  const Malformed := "invalid JSON string array"

  // ---------------------------------------------------------------------
  // Encoding (`Value`, i.e. `json.Marshal`)
  // ---------------------------------------------------------------------

  function HexDigit(n: nat): (c: char)
    requires n < 16
  {
    if n < 10 then ('0' as int + n) as char else ('a' as int + n - 10) as char
  }

  /** Four lower-case hex digits, as `encoding/json` writes `\uXXXX`. */
  function Hex4(n: nat): (r: string)
    requires n < 0x10000
    ensures |r| == 4
  {
    [HexDigit(n / 0x1000), HexDigit(n % 0x1000 / 0x100), HexDigit(n % 0x100 / 0x10), HexDigit(n % 0x10)]
  }

  /** Characters `encoding/json` writes as `\u` escapes: control characters
      without a short escape, the HTML-sensitive `<`, `>`, `&`, and the
      line and paragraph separators. */
  predicate NeedsUnicodeEscape(c: char)
  {
    || (c < ' ' && c != '\n' && c != '\r' && c != '\t')
    || c == '<' || c == '>' || c == '&'
    || c == '\U{2028}' || c == '\U{2029}'
  }

  /** A character that appears in the encoding as itself. */
  predicate IsPlain(c: char)
  {
    c != '"' && c != '\\' && c != '\n' && c != '\r' && c != '\t' && !NeedsUnicodeEscape(c)
  }

  function EscapeChar(c: char): (r: string)
    ensures |r| >= 1
    ensures IsPlain(c) <==> r == [c]
  {
    if c == '"' then "\\\""
    else if c == '\\' then "\\\\"
    else if c == '\n' then "\\n"
    else if c == '\r' then "\\r"
    else if c == '\t' then "\\t"
    else if NeedsUnicodeEscape(c) then "\\u" + Hex4(c as int)
    else [c]
  }

  /** The body of a JSON string literal for `s`. */
  function EscapeBody(s: string): (r: string)
    ensures (forall i :: 0 <= i < |s| ==> IsPlain(s[i])) ==> r == s
  {
    if |s| == 0 then "" else EscapeChar(s[0]) + EscapeBody(s[1..])
  }

  function Quote(s: string): string
  {
    "\"" + EscapeBody(s) + "\""
  }

  /** The comma-separated quoted elements of a non-empty array. */
  function Items(xs: seq<string>): string
    requires |xs| > 0
  {
    if |xs| == 1 then Quote(xs[0]) else Quote(xs[0]) + "," + Items(xs[1..])
  }

  /** `Value`: the empty (or nil) array is written as `[]`, any other array
      as its JSON encoding. */
  function Value(xs: seq<string>): (text: string)
    ensures |text| >= 2 && text[0] == '[' && text[|text| - 1] == ']'
    ensures |xs| == 0 <==> text == "[]"
  {
    if |xs| == 0 then "[]" else "[" + Items(xs) + "]"
  }

  // ---------------------------------------------------------------------
  // Decoding (`Scan`, i.e. `json.Unmarshal` into a string slice)
  // ---------------------------------------------------------------------

  function HexValue(c: char): (r: Option<nat>)
    ensures r.Some? ==> r.value < 16
  {
    if '0' <= c <= '9' then Some(c as int - '0' as int)
    else if 'a' <= c <= 'f' then Some(c as int - 'a' as int + 10)
    else if 'A' <= c <= 'F' then Some(c as int - 'A' as int + 10)
    else None
  }

  function ParseHex4(s: string): (r: Option<nat>)
    requires |s| >= 4
    ensures r.Some? ==> r.value < 0x10000
  {
    match (HexValue(s[0]), HexValue(s[1]), HexValue(s[2]), HexValue(s[3]))
    case (Some(a), Some(b), Some(c), Some(d)) => Some(a * 0x1000 + b * 0x100 + c * 0x10 + d)
    case _ => None
  }

  /** An escape sequence after its backslash: the character it denotes and
      how many characters it spans.  A `\u` escape naming a UTF-16
      surrogate is refused (see README). */
  function Unescape(t: string): (r: Option<(char, nat)>)
    ensures r.Some? ==> 1 <= r.value.1 <= |t|
  {
    if |t| == 0 then None
    else if t[0] == '"' then Some(('"', 1))
    else if t[0] == '\\' then Some(('\\', 1))
    else if t[0] == '/' then Some(('/', 1))
    else if t[0] == 'b' then Some(('\U{0008}', 1))
    else if t[0] == 'f' then Some(('\U{000C}', 1))
    else if t[0] == 'n' then Some(('\n', 1))
    else if t[0] == 'r' then Some(('\r', 1))
    else if t[0] == 't' then Some(('\t', 1))
    else if t[0] == 'u' && |t| >= 5 then
      match ParseHex4(t[1..5])
      case Some(n) => if n < 0xD800 || 0xE000 <= n then Some((n as char, 5)) else None
      case None => None
    else None
  }

  /** The rest of a string literal after its opening quote: the decoded
      contents and what follows the closing quote. */
  function ParseString(s: string): (r: Result<(string, string)>)
    ensures r.Ok? ==> |r.value.1| < |s|
    decreases |s|
  {
    if |s| == 0 then Err(Malformed)
    else if s[0] == '"' then Ok(("", s[1..]))
    else if s[0] == '\\' then
      match Unescape(s[1..])
      case None => Err(Malformed)
      case Some((c, n)) =>
        var tail :- ParseString(s[1 + n..]);
        Ok(([c] + tail.0, tail.1))
    else if s[0] < ' ' then Err(Malformed)
    else
      var tail :- ParseString(s[1..]);
      Ok(([s[0]] + tail.0, tail.1))
  }

  /** The elements of a non-empty array after its `[`. */
  function ParseItems(s: string): (r: Result<seq<string>>)
    ensures r.Ok? ==> |r.value| > 0
    decreases |s|
  {
    if |s| == 0 || s[0] != '"' then Err(Malformed)
    else
      var item :- ParseString(s[1..]);
      var rest := item.1;
      if rest == "]" then Ok([item.0])
      else if |rest| > 0 && rest[0] == ',' then
        var more :- ParseItems(rest[1..]);
        Ok([item.0] + more)
      else Err(Malformed)
  }

  /** `json.Unmarshal` of a whole text into a string slice; `null` gives
      the empty slice. */
  function Decode(text: string): (r: Result<seq<string>>)
  {
    if text == "null" || text == "[]" then Ok([])
    else if |text| > 0 && text[0] == '[' then ParseItems(text[1..])
    else Err(Malformed)
  }

  /** `Scan`: SQL NULL and empty bytes are the empty array, a non-byte
      value is refused, anything else is decoded. */
  function Scan(v: DbValue): (r: Result<seq<string>>)
    ensures v.Null? ==> r == Ok([])
    ensures v.OtherValue? ==> r == Err(ScanFailed)
    ensures v == Bytes("") ==> r == Ok([])
    ensures v.Bytes? && v.text != "" ==> r == Decode(v.text)
  {
    match v
    case Null => Ok([])
    case OtherValue => Err(ScanFailed)
    case Bytes(text) => if |text| == 0 then Ok([]) else Decode(text)
  }

  // ---------------------------------------------------------------------
  // The column (`serializer:json`)
  // ---------------------------------------------------------------------

  /** What GORM's JSON serializer writes to the `tags` column.  The
      `serializer:json` tag of `Contact.Tags` makes GORM marshal the field
      itself instead of calling `Value`.  `json.Marshal` of a nil list is
      `null`, which is stored as SQL NULL; of any other list it is the
      text `Value` writes (`[]` when the list is empty). */
  function Serialize(tags: Option<seq<string>>): (v: DbValue)
    ensures v.Null? <==> tags.None?
    ensures tags.Some? ==> v == Bytes(Value(tags.value))
  {
    match tags
    case None => Null
    case Some(xs) => Bytes(Value(xs))
  }

  /** What the serializer reads back.  NULL and empty text leave the nil
      list; other text is unmarshaled into a nil list, so `null` stays nil
      and `[]` is an empty list.  A value that is not text is refused. */
  function Deserialize(v: DbValue): (r: Result<Option<seq<string>>>)
    ensures v.Null? || v == Bytes("") || v == Bytes("null") ==> r == Ok(None)
    ensures v.OtherValue? ==> r.Err?
    ensures v.Bytes? && v.text != "" && v.text != "null" ==>
              && (r.Ok? <==> Decode(v.text).Ok?)
              && (r.Ok? ==> r.value == Some(Decode(v.text).value))
  {
    match v
    case Null => Ok(None)
    case OtherValue => Err(Malformed)
    case Bytes(text) =>
      if text == "" || text == "null" then Ok(None)
      else
        var xs :- Decode(text);
        Ok(Some(xs))
  }

  /** The tag filter's `tags LIKE '%pattern%'`: NULL matches no pattern. */
  predicate ColumnLike(tags: Option<seq<string>>, pattern: string)
  {
    Serialize(tags).Bytes? && Contains(Serialize(tags).text, pattern)
  }

  // ---------------------------------------------------------------------
  // Round trip
  // ---------------------------------------------------------------------

  lemma HexDigitValue(k: nat)
    requires k < 16
    ensures HexValue(HexDigit(k)) == Some(k)
  {
  }

  /** The four hex digits of `n` are its base-16 expansion. */
  lemma HexDigits(n: nat)
    requires n < 0x10000
    ensures n == (n / 0x1000) * 0x1000 + (n % 0x1000 / 0x100) * 0x100 + (n % 0x100 / 0x10) * 0x10 + n % 0x10
    ensures n % 0x1000 / 0x100 < 16 && n % 0x100 / 0x10 < 16
  {
    var a, r1 := n / 0x1000, n % 0x1000;
    var b, r2 := r1 / 0x100, r1 % 0x100;
    assert r2 == n % 0x100;
    var c, d := r2 / 0x10, r2 % 0x10;
    assert d == n % 0x10;
  }

  lemma HexRoundTrip(n: nat)
    requires n < 0x10000
    ensures ParseHex4(Hex4(n)) == Some(n)
  {
    var h := Hex4(n);
    HexDigits(n);
    HexDigitValue(n / 0x1000);
    HexDigitValue(n % 0x1000 / 0x100);
    HexDigitValue(n % 0x100 / 0x10);
    HexDigitValue(n % 0x10);
  }

  /** `ParseString` on a plain first character. */
  lemma ParseStringPlain(s: string, contents: string, rest: string)
    requires |s| > 0 && IsPlain(s[0])
    requires ParseString(s[1..]) == Ok((contents, rest))
    ensures ParseString(s) == Ok(([s[0]] + contents, rest))
  {
  }

  /** `ParseString` on an escape sequence. */
  lemma ParseStringEscape(s: string, c: char, n: nat, contents: string, rest: string)
    requires |s| > 0 && s[0] == '\\'
    requires Unescape(s[1..]) == Some((c, n))
    requires ParseString(s[1 + n..]) == Ok((contents, rest))
    ensures ParseString(s) == Ok(([c] + contents, rest))
  {
  }

  /** One escaped character is read back as itself. */
  lemma UnescapeEscapeChar(c: char, rest: string)
    requires !IsPlain(c)
    ensures EscapeChar(c)[0] == '\\'
    ensures Unescape(EscapeChar(c)[1..] + rest) == Some((c, |EscapeChar(c)| - 1))
  {
    var e := EscapeChar(c);
    if NeedsUnicodeEscape(c) && c != '"' && c != '\\' && c != '\n' && c != '\r' && c != '\t' {
      HexRoundTrip(c as int);
      assert (e[1..] + rest)[1..5] == Hex4(c as int);
    }
  }

  /** Reading the escaped body of `t` followed by a closing quote gives `t`
      back, with the remaining text untouched. */
  lemma {:induction false} ParseEscapedString(t: string, rest: string)
    ensures ParseString(EscapeBody(t) + "\"" + rest) == Ok((t, rest))
    decreases |t|
  {
    if |t| == 0 {
      assert EscapeBody(t) + "\"" + rest == "\"" + rest;
    } else {
      var tailText := EscapeBody(t[1..]) + "\"" + rest;
      ParseEscapedString(t[1..], rest);
      assert EscapeBody(t) + "\"" + rest == EscapeChar(t[0]) + tailText;
      ParseEscapedChar(t[0], tailText, t[1..], rest);
      assert [t[0]] + t[1..] == t;
    }
  }

  /** One step of the round trip: an escaped character in front of text
      that parses. */
  lemma ParseEscapedChar(c: char, tailText: string, contents: string, rest: string)
    requires ParseString(tailText) == Ok((contents, rest))
    ensures ParseString(EscapeChar(c) + tailText) == Ok(([c] + contents, rest))
  {
    var e := EscapeChar(c);
    var s := e + tailText;
    if IsPlain(c) {
      assert s[1..] == tailText;
      ParseStringPlain(s, contents, rest);
    } else {
      UnescapeEscapeChar(c, tailText);
      assert s[1..] == e[1..] + tailText;
      assert s[1 + (|e| - 1)..] == tailText;
      ParseStringEscape(s, c, |e| - 1, contents, rest);
    }
  }

  lemma ParseItemsLast(s: string, x: string)
    requires |s| > 0 && s[0] == '"' && ParseString(s[1..]) == Ok((x, "]"))
    ensures ParseItems(s) == Ok([x])
  {
  }

  lemma ParseItemsMore(s: string, x: string, rest: string, more: seq<string>)
    requires |s| > 0 && s[0] == '"' && ParseString(s[1..]) == Ok((x, rest))
    requires |rest| > 0 && rest[0] == ',' && ParseItems(rest[1..]) == Ok(more)
    ensures ParseItems(s) == Ok([x] + more)
  {
    assert rest != "]";
  }

  /** The quoted first element is read back and the text after it is
      handed on. */
  lemma ParseQuoted(x: string, after: string)
    ensures ParseString((Quote(x) + after)[1..]) == Ok((x, after))
  {
    assert (Quote(x) + after)[1..] == EscapeBody(x) + "\"" + after;
    ParseEscapedString(x, after);
  }

  lemma {:induction false} ParseItemsRoundTrip(xs: seq<string>)
    requires |xs| > 0
    ensures ParseItems(Items(xs) + "]") == Ok(xs)
    decreases |xs|
  {
    if |xs| == 1 {
      ParseQuoted(xs[0], "]");
      ParseItemsLast(Quote(xs[0]) + "]", xs[0]);
      assert [xs[0]] == xs;
    } else {
      var rest := "," + (Items(xs[1..]) + "]");
      assert Items(xs) + "]" == Quote(xs[0]) + rest;
      ParseQuoted(xs[0], rest);
      ParseItemsRoundTrip(xs[1..]);
      assert rest[1..] == Items(xs[1..]) + "]";
      ParseItemsMore(Quote(xs[0]) + rest, xs[0], rest, xs[1..]);
      assert [xs[0]] + xs[1..] == xs;
    }
  }

  /** What `Value` writes, `Scan` reads back unchanged. */
  lemma ValueScanRoundTrip(xs: seq<string>)
    ensures Scan(Bytes(Value(xs))) == Ok(xs)
  {
    if |xs| > 0 {
      var text := Value(xs);
      assert text[1..] == Items(xs) + "]";
      assert text != "null" && text != "[]" by {
        assert text[0] == '[' && |text| > 2 by {
          assert |Items(xs)| >= 2;
        }
      }
      ParseItemsRoundTrip(xs);
    }
  }

  /** Whatever list the serializer writes, nil included, it reads back
      unchanged. */
  lemma SerializeRoundTrip(tags: Option<seq<string>>)
    ensures Deserialize(Serialize(tags)) == Ok(tags)
  {
    if tags.Some? {
      ValueScanRoundTrip(tags.value);
    }
  }

  // ---------------------------------------------------------------------
  // The tag filter
  // ---------------------------------------------------------------------

  /** A tag made only of plain characters occurs, quoted, in the stored text
      of every array that holds it: the contact repository's `LIKE` on
      the text finds it. */
  lemma {:induction false} ItemsContainTag(xs: seq<string>, tag: string)
    requires |xs| > 0 && tag in xs
    ensures Contains(Items(xs), Quote(tag))
    decreases |xs|
  {
    var q := Quote(tag);
    if xs[0] == tag {
      var after := if |xs| == 1 then "" else "," + Items(xs[1..]);
      assert Items(xs) == q + after;
      assert Items(xs)[0..|q|] == q;
      assert OccursAt(Items(xs), q, 0);
    } else {
      ItemsContainTag(xs[1..], tag);
      assert Items(xs) == (Quote(xs[0]) + ",") + Items(xs[1..]) + "";
      ContainsExtended(Quote(xs[0]) + ",", Items(xs[1..]), "", q);
    }
  }

  lemma StoredTextContainsTag(xs: seq<string>, tag: string)
    requires tag in xs
    requires forall i :: 0 <= i < |tag| ==> IsPlain(tag[i])
    ensures Contains(Value(xs), "\"" + tag + "\"")
  {
    ItemsContainTag(xs, tag);
    assert Quote(tag) == "\"" + tag + "\"";
    ContainsExtended("[", Items(xs), "]", Quote(tag));
  }

  /** The stored text of `["VIP"]` contains `VI`: the tag filter matches
      substrings of tags, not only whole tags. */
  lemma TagFilterMatchesSubstrings()
    ensures Contains(Value(["VIP"]), "VI")
    ensures "VI" !in ["VIP"]
  {
    var text := Value(["VIP"]);
    assert text == "[\"VIP\"]";
    assert OccursAt(text, "VI", 2);
  }
}
