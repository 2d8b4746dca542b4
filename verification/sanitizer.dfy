/**
  The string filter `customSanitize` (meat.js:11-18).

  It deletes every `<...>` run (or `<...` up to the end of the string), then the
  three quote characters, and finally, when a character class is supplied, every
  character outside that class. The class is supplied as the text of a regular
  expression class body and compiled with the `i` flag; a body with a range whose
  ends are out of order makes the `RegExp` constructor throw.
 */
module Sanitizer {
  import opened Wrappers

  /** The characters removed by the second replacement pass. */
  predicate IsQuote(c: char) {
    c == '"' || c == '\'' || c == '`'
  }

  /** JavaScript truthiness of an optional string: absent and empty are falsy. */
  predicate Falsy(input: Option<string>) {
    input.None? || input.value == ""
  }

  /** No character that could open a tag or close an attribute value. */
  predicate NoMarkup(s: string) {
    '<' !in s && '"' !in s && '\'' !in s && '`' !in s
  }

  /** The ASCII identifier class `[A-Za-z0-9_-]`. */
  predicate IsIdentChar(c: char) {
    ('A' <= c <= 'Z') || ('a' <= c <= 'z') || ('0' <= c <= '9') || c == '_' || c == '-'
  }

  // ---------------------------------------------------------------------------
  // The two unconditional passes

  /** What remains after a `<` has been matched by `<[^>]*>?`: the text after the
      first `>`, or nothing when no `>` follows. */
  function SkipTag(s: string): (r: string)
    ensures |r| <= |s|
    ensures r == s[|s| - |r|..]
    ensures '>' !in s ==> r == ""
  {
    if |s| == 0 then ""
    else if s[0] == '>' then s[1..]
    else SkipTag(s[1..])
  }

  /** The first pass, `replace(/<[^>]*>?/g, '')`. */
  function StripTags(s: string): (r: string)
    ensures '<' !in r
    ensures forall c :: c in r ==> c in s
    ensures '<' !in s ==> r == s
    decreases |s|
  {
    if |s| == 0 then ""
    else if s[0] == '<' then
      var rest := SkipTag(s[1..]);
      assert forall c :: c in rest ==> c in s by {
        forall c | c in rest ensures c in s {
          var i :| 0 <= i < |rest| && rest[i] == c;
          assert s[1..][|s| - 1 - |rest| + i] == c;
        }
      }
      StripTags(rest)
    else
      assert s == [s[0]] + s[1..];
      [s[0]] + StripTags(s[1..])
  }

  /** The second pass, `replace(/["'`]/g, '')`. */
  function StripQuotes(s: string): (r: string)
    ensures forall c :: c in r ==> c in s && !IsQuote(c)
    ensures (forall c :: c in s ==> !IsQuote(c)) ==> r == s
  {
    if |s| == 0 then ""
    else if IsQuote(s[0]) then StripQuotes(s[1..])
    else
      assert s == [s[0]] + s[1..];
      [s[0]] + StripQuotes(s[1..])
  }

  /** Text without `<` passes the tag pass untouched, whatever follows it. */
  lemma {:induction false} StripTagsPlainPrefix(a: string, b: string)
    requires '<' !in a
    ensures StripTags(a + b) == a + StripTags(b)
    decreases |a|
  {
    if |a| > 0 {
      var s := a + b;
      assert s[0] == a[0] && s[0] != '<';
      assert s[1..] == a[1..] + b;
      assert StripTags(s) == [a[0]] + StripTags(a[1..] + b);
      StripTagsPlainPrefix(a[1..], b);
      assert StripTags(s) == [a[0]] + (a[1..] + StripTags(b));
      assert [a[0]] + (a[1..] + StripTags(b)) == ([a[0]] + a[1..]) + StripTags(b);
      assert [a[0]] + a[1..] == a;
    } else {
      assert a + b == b;
    }
  }

  lemma {:induction false} SkipTagStopsAtClose(t: string, u: string)
    requires '>' !in t
    ensures SkipTag(t + ">" + u) == u
    decreases |t|
  {
    if |t| == 0 {
      assert (t + ">" + u)[0] == '>' && (t + ">" + u)[1..] == u;
    } else {
      assert (t + ">" + u)[0] == t[0];
      assert (t + ">" + u)[1..] == t[1..] + ">" + u;
      SkipTagStopsAtClose(t[1..], u);
    }
  }

  /** A closed tag `<t>` goes, brackets included, and the pass resumes after it. */
  lemma StripTagsDropsTag(t: string, u: string)
    requires '>' !in t
    ensures StripTags("<" + t + ">" + u) == StripTags(u)
  {
    var s := "<" + t + ">" + u;
    assert s[0] == '<' && s[1..] == t + ">" + u;
    SkipTagStopsAtClose(t, u);
  }

  /** A `<` that is never closed takes the rest of the text with it. */
  lemma StripTagsDropsOpenTail(t: string)
    requires '>' !in t
    ensures StripTags("<" + t) == ""
  {
    assert ("<" + t)[1..] == t;
  }

  /** The quote pass works character by character: it deletes exactly the
      three quote characters and keeps every other one, in order. */
  lemma {:induction false} StripQuotesConcat(a: string, b: string)
    ensures StripQuotes(a + b) == StripQuotes(a) + StripQuotes(b)
    decreases |a|
  {
    if |a| > 0 {
      assert (a + b)[0] == a[0];
      assert (a + b)[1..] == a[1..] + b;
      StripQuotesConcat(a[1..], b);
      if !IsQuote(a[0]) {
        assert [a[0]] + StripQuotes(a[1..]) + StripQuotes(b) == [a[0]] + (StripQuotes(a[1..]) + StripQuotes(b));
      }
    } else {
      assert a + b == b;
    }
  }

  lemma StripQuotesChar(c: char)
    ensures StripQuotes([c]) == if IsQuote(c) then "" else [c]
  {
    assert [c][1..] == "";
  }

  // ---------------------------------------------------------------------------
  // Character classes

  /** One element of a class body: a single character or a range `lo-hi`. */
  datatype ClassItem = Single(c: char) | Span(lo: char, hi: char)

  /** The body of the identifier class used for room ids, names and arguments. */
  const IdentClass: string := "A-Za-z0-9_-"

  /** The body used by the `img`, `video` and `iframe` commands: the JavaScript
      literal `'A-Za-z0-9_\-\.:\/'` drops its backslashes, leaving this text. */
  const UrlClass: string := "A-Za-z0-9_-.:/"

  /** The items of `IdentClass`. */
  const IdentItems: seq<ClassItem> :=
    [Span('A', 'Z'), Span('a', 'z'), Span('0', '9'), Single('_'), Single('-')]

  /** Parses a class body without escapes: an atom followed by `-` and another
      atom is a range; a `-` with nothing after it is literal. `None` is the
      "range out of order in character class" SyntaxError. */
  function ParseClass(body: string): (r: Option<seq<ClassItem>>)
    ensures r.Some? ==> forall i :: 0 <= i < |r.value| && r.value[i].Span? ==> r.value[i].lo <= r.value[i].hi
  {
    if |body| == 0 then Some([])
    else if |body| >= 3 && body[1] == '-' then
      if body[0] <= body[2] then
        match ParseClass(body[3..])
        case None => None
        case Some(rest) => Some([Span(body[0], body[2])] + rest)
      else None
    else
      match ParseClass(body[1..])
      case None => None
      case Some(rest) => Some([Single(body[0])] + rest)
  }

  predicate Covers(item: ClassItem, c: char) {
    match item
    case Single(d) => c == d
    case Span(lo, hi) => lo <= c <= hi
  }

  predicate InItems(items: seq<ClassItem>, c: char) {
    |items| > 0 && (Covers(items[0], c) || InItems(items[1..], c))
  }

  function AsciiUpper(c: char): char {
    if 'a' <= c <= 'z' then (c as int - 32) as char else c
  }

  function AsciiLower(c: char): char {
    if 'A' <= c <= 'Z' then (c as int + 32) as char else c
  }

  /** Class membership under the `i` flag. Case folding is applied to ASCII
      letters only; for a class whose members are all ASCII this is exactly the
      non-Unicode canonicalisation of ECMAScript, which never folds a non-ASCII
      character onto an ASCII one. */
  predicate MatchesCI(items: seq<ClassItem>, c: char) {
    InItems(items, c) || InItems(items, AsciiUpper(c)) || InItems(items, AsciiLower(c))
  }

  /** The third pass, `replace(new RegExp('[^' + body + ']', 'gi'), '')`. */
  function KeepOnly(s: string, items: seq<ClassItem>): (r: string)
    ensures forall c :: c in r ==> c in s && MatchesCI(items, c)
    ensures (forall c :: c in s ==> MatchesCI(items, c)) ==> r == s
  {
    if |s| == 0 then ""
    else if MatchesCI(items, s[0]) then
      assert s == [s[0]] + s[1..];
      [s[0]] + KeepOnly(s[1..], items)
    else KeepOnly(s[1..], items)
  }

  /** The class pass works character by character: it deletes exactly the
      characters outside the class and keeps the others, in order. */
  lemma {:induction false} KeepOnlyConcat(a: string, b: string, items: seq<ClassItem>)
    ensures KeepOnly(a + b, items) == KeepOnly(a, items) + KeepOnly(b, items)
    decreases |a|
  {
    if |a| > 0 {
      assert (a + b)[0] == a[0];
      assert (a + b)[1..] == a[1..] + b;
      KeepOnlyConcat(a[1..], b, items);
      if MatchesCI(items, a[0]) {
        assert [a[0]] + KeepOnly(a[1..], items) + KeepOnly(b, items) == [a[0]] + (KeepOnly(a[1..], items) + KeepOnly(b, items));
      }
    } else {
      assert a + b == b;
    }
  }

  lemma KeepOnlyChar(c: char, items: seq<ClassItem>)
    ensures KeepOnly([c], items) == if MatchesCI(items, c) then [c] else ""
  {
    assert [c][1..] == "";
  }

  /** The error `new RegExp` raises. */
  datatype Fault = RangeOutOfOrder

  /** `customSanitize(input, allowedCharsRegex)`; `cls` is the class body, absent
      (or empty, which is just as falsy) when no class is given. */
  function CustomSanitize(input: Option<string>, cls: Option<string>): (r: Result<string, Fault>)
    ensures Falsy(input) ==> r == Success("")
    ensures r.Failure? <==> !Falsy(input) && !Falsy(cls) && ParseClass(cls.value).None?
    ensures r.Success? ==> NoMarkup(r.value)
    ensures r.Success? && input.Some? ==> forall c :: c in r.value ==> c in input.value
    ensures r.Success? && !Falsy(cls) && ParseClass(cls.value).Some? ==>
              forall c :: c in r.value ==> MatchesCI(ParseClass(cls.value).value, c)
    ensures !Falsy(input) && Falsy(cls) ==> r == Success(StripQuotes(StripTags(input.value)))
    ensures !Falsy(input) && !Falsy(cls) && ParseClass(cls.value).Some? ==>
              r == Success(KeepOnly(StripQuotes(StripTags(input.value)), ParseClass(cls.value).value))
  {
    if Falsy(input) then Success("")
    else
      var safe := StripQuotes(StripTags(input.value));
      if Falsy(cls) then Success(safe)
      else
        match ParseClass(cls.value)
        case None => Failure(RangeOutOfOrder)
        case Some(items) => Success(KeepOnly(safe, items))
  }

  // ---------------------------------------------------------------------------
  // The class bodies the server uses

  lemma InIdentItems(c: char)
    ensures InItems(IdentItems, c) <==> IsIdentChar(c)
  {
    var t1 := [Span('a', 'z'), Span('0', '9'), Single('_'), Single('-')];
    var t2 := [Span('0', '9'), Single('_'), Single('-')];
    var t3 := [Single('_'), Single('-')];
    var t4 := [Single('-')];
    assert IdentItems[1..] == t1 && t1[1..] == t2 && t2[1..] == t3 && t3[1..] == t4;
    assert InItems(t4, c) <==> c == '-' by { assert t4[1..] == []; }
    assert InItems(t3, c) <==> c == '_' || c == '-';
    assert InItems(t2, c) <==> ('0' <= c <= '9') || c == '_' || c == '-';
    assert InItems(t1, c) <==> ('a' <= c <= 'z') || ('0' <= c <= '9') || c == '_' || c == '-';
  }

  lemma IdentItemsAreIdentChars(c: char)
    ensures MatchesCI(IdentItems, c) <==> IsIdentChar(c)
  {
    InIdentItems(c);
    InIdentItems(AsciiUpper(c));
    InIdentItems(AsciiLower(c));
  }

  /** The identifier class compiles, and under the `i` flag it keeps exactly the
      ASCII identifier characters. */
  lemma IdentClassIsAsciiIdent()
    ensures ParseClass(IdentClass) == Some(IdentItems)
    ensures forall c :: MatchesCI(IdentItems, c) <==> IsIdentChar(c)
  {
    var t4: seq<ClassItem> := [Single('-')];
    var t3 := [Single('_')] + t4;
    var t2 := [Span('0', '9')] + t3;
    var t1 := [Span('a', 'z')] + t2;
    assert IdentItems == [Span('A', 'Z')] + t1;
    assert ParseClass("-") == Some(t4) by {
      assert "-"[1..] == "";
      assert [Single('-')] + [] == t4;
    }
    assert ParseClass("_-") == Some(t3) by { assert "_-"[1..] == "-"; }
    assert ParseClass("0-9_-") == Some(t2) by { assert "0-9_-"[3..] == "_-"; }
    assert ParseClass("a-z0-9_-") == Some(t1) by { assert "a-z0-9_-"[3..] == "0-9_-"; }
    assert IdentClass[3..] == "a-z0-9_-";
    forall c ensures MatchesCI(IdentItems, c) <==> IsIdentChar(c) {
      IdentItemsAreIdentChars(c);
    }
  }

  /** The URL class body contains the range `_-.`, from U+005F down to U+002E. */
  lemma UrlClassIsMalformed()
    ensures ParseClass(UrlClass).None?
  {
    assert UrlClass[3..] == "a-z0-9_-.:/";
    assert UrlClass[3..][3..] == "0-9_-.:/";
    assert UrlClass[3..][3..][3..] == "_-.:/";
  }

  /** `customSanitize(x, 'A-Za-z0-9_-')`: never throws. */
  function CleanIdent(input: Option<string>): (r: string)
    ensures forall c :: c in r ==> IsIdentChar(c)
    ensures Falsy(input) ==> r == ""
    ensures input.Some? ==> forall c :: c in r ==> c in input.value
    ensures CustomSanitize(input, Some(IdentClass)).Success?
    ensures CustomSanitize(input, Some(IdentClass)).value == r
  {
    IdentClassIsAsciiIdent();
    CustomSanitize(input, Some(IdentClass)).value
  }

  /** `customSanitize(x)` with no class: never throws. */
  function Clean(input: Option<string>): (r: string)
    ensures NoMarkup(r)
    ensures Falsy(input) ==> r == ""
    ensures input.Some? ==> forall c :: c in r ==> c in input.value
    ensures CustomSanitize(input, None).Success?
    ensures CustomSanitize(input, None).value == r
  {
    CustomSanitize(input, None).value
  }

  // ---------------------------------------------------------------------------
  // Properties

  /** Sanitizing a sanitized string with the same class changes nothing. */
  lemma SanitizeIdempotent(input: Option<string>, cls: Option<string>, r: string)
    requires CustomSanitize(input, cls) == Success(r)
    ensures CustomSanitize(Some(r), cls) == Success(r)
  {
    if r != "" {
      assert !Falsy(input);
      assert StripTags(r) == r;
      assert StripQuotes(r) == r;
      if !Falsy(cls) {
        var items := ParseClass(cls.value).value;
        assert KeepOnly(r, items) == r;
      }
    }
  }

  /** Strings already free of markup, and inside the class when one is given,
      are the fixed points of the filter: together with the output guarantees of
      `CustomSanitize`, the filter is a projection onto exactly these strings. */
  lemma SafeStringsAreFixed(s: string, cls: Option<string>)
    requires NoMarkup(s)
    requires !Falsy(cls) ==> ParseClass(cls.value).Some?
    requires !Falsy(cls) ==> forall c :: c in s ==> MatchesCI(ParseClass(cls.value).value, c)
    ensures CustomSanitize(Some(s), cls) == Success(s)
  {
    if s != "" {
      assert StripTags(s) == s;
      assert forall c :: c in s ==> !IsQuote(c);
      assert StripQuotes(s) == s;
    }
  }

  /** The identifier filter is idempotent. */
  lemma CleanIdentIdempotent(input: Option<string>)
    ensures CleanIdent(Some(CleanIdent(input))) == CleanIdent(input)
  {
    SanitizeIdempotent(input, Some(IdentClass), CleanIdent(input));
  }

  /** An identifier-class string is its own reduction. */
  lemma IdentStringSurvives(t: string)
    requires forall c :: c in t ==> IsIdentChar(c)
    ensures CleanIdent(Some(t)) == t
  {
    IdentClassIsAsciiIdent();
    SafeStringsAreFixed(t, Some(IdentClass));
  }

  /** The markup filter is idempotent. */
  lemma CleanIdempotent(input: Option<string>)
    ensures Clean(Some(Clean(input))) == Clean(input)
  {
    SanitizeIdempotent(input, None, Clean(input));
  }

  /** The class-less filter on text holding one closed tag: the tag goes, the
      quotes go, and every other character stays, in order. */
  lemma CleanDropsTag(a: string, t: string, b: string)
    requires '<' !in a && '>' !in t
    ensures Clean(Some(a + "<" + t + ">" + b)) == StripQuotes(a) + Clean(Some(b))
  {
    var tail := "<" + t + ">" + b;
    assert a + "<" + t + ">" + b == a + tail;
    StripTagsPlainPrefix(a, tail);
    StripTagsDropsTag(t, b);
    StripQuotesConcat(a, StripTags(b));
  }

  /** `customSanitize("a<b>c")` is `"ac"`. */
  lemma CleanExample()
    ensures Clean(Some("a<b>c")) == "ac"
  {
    CleanDropsTag("a", "b", "c");
    assert "a" + "<" + "b" + ">" + "c" == "a<b>c";
    SafeStringsAreFixed("c", None);
    StripQuotesChar('a');
    assert "a" == ['a'];
  }

  /** Any truthy input filtered through the URL class throws. */
  lemma UrlSanitizeThrows(input: Option<string>)
    ensures Falsy(input) ==> CustomSanitize(input, Some(UrlClass)) == Success("")
    ensures !Falsy(input) ==> CustomSanitize(input, Some(UrlClass)) == Failure(RangeOutOfOrder)
  {
    UrlClassIsMalformed();
  }
}
