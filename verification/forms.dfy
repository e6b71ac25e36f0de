/** The two pure helpers of `ai_watch/routes.py` that turn HTML form text into
    payload values: `_split_tags` and `_parse_optional_int`. */
module Forms {
  import opened Results

  /** `str.isspace()`: the characters `str.strip()` removes. */
  predicate IsSpace(c: char)
  {
    var n := c as int;
    || 9 <= n <= 13 || 28 <= n <= 32 || n == 0x85 || n == 0xA0 || n == 0x1680
    || 0x2000 <= n <= 0x200A || n == 0x2028 || n == 0x2029 || n == 0x202F
    || n == 0x205F || n == 0x3000
  }

  /** Every character of `s[lo..hi]` is whitespace. */
  predicate SpacesIn(s: string, lo: int, hi: int)
    requires 0 <= lo && hi <= |s|
  {
    forall k :: lo <= k < hi ==> IsSpace(s[k])
  }

  predicate AllSpace(s: string)
  {
    SpacesIn(s, 0, |s|)
  }

  /** No whitespace at either end. */
  predicate Trimmed(s: string)
  {
    s == [] || (!IsSpace(s[0]) && !IsSpace(s[|s| - 1]))
  }

  /** The first position at or after `i` that does not hold whitespace. */
  function SkipSpaces(s: string, i: nat): (m: nat)
    requires i <= |s|
    ensures i <= m <= |s| && SpacesIn(s, i, m)
    ensures m < |s| ==> !IsSpace(s[m])
    decreases |s| - i
  {
    if i == |s| || !IsSpace(s[i]) then i else SkipSpaces(s, i + 1)
  }

  /** Where the whitespace that `s[lo..j]` ends with begins. */
  function BackSpaces(s: string, lo: nat, j: nat): (m: nat)
    requires lo <= j <= |s|
    ensures lo <= m <= j && SpacesIn(s, m, j)
    ensures lo < m ==> !IsSpace(s[m - 1])
  {
    if j == lo || !IsSpace(s[j - 1]) then j else BackSpaces(s, lo, j - 1)
  }

  /** `str.strip()`: what is left after removing whitespace from both ends.
      The result is the slice of `s` that begins right after its leading
      whitespace and is followed only by whitespace. */
  function Strip(s: string): (r: string)
    ensures Trimmed(r)
    ensures SkipSpaces(s, 0) + |r| <= |s|
    ensures r == s[SkipSpaces(s, 0)..SkipSpaces(s, 0) + |r|]
    ensures SpacesIn(s, SkipSpaces(s, 0) + |r|, |s|)
    ensures r == [] <==> AllSpace(s)
  {
    var i := SkipSpaces(s, 0);
    var j := BackSpaces(s, i, |s|);
    assert i < j ==> s[i..j][0] == s[i] && s[i..j][j - i - 1] == s[j - 1];
    s[i..j]
  }

  /** A character absent from `s` is absent from its stripped form. */
  lemma StripKeepsOut(s: string, c: char)
    requires c !in s
    ensures c !in Strip(s)
  {
    var r := Strip(s);
    var i := SkipSpaces(s, 0);
    forall k | 0 <= k < |r| ensures r[k] != c {
      assert r[k] == s[i + k];
    }
  }

  /** Skipping from `i` stops at the first non-blank `m`. */
  lemma {:induction false} SkipSpacesTo(s: string, i: nat, m: nat)
    requires i <= m < |s| && SpacesIn(s, i, m) && !IsSpace(s[m])
    ensures SkipSpaces(s, i) == m
    decreases m - i
  {
    if i < m {
      SkipSpacesTo(s, i + 1, m);
    }
  }

  /** Scanning back from `j` stops right after the last non-blank. */
  lemma {:induction false} BackSpacesTo(s: string, lo: nat, j: nat, m: nat)
    requires lo < m <= j <= |s| && SpacesIn(s, m, j) && !IsSpace(s[m - 1])
    ensures BackSpaces(s, lo, j) == m
    decreases j - m
  {
    if m < j {
      BackSpacesTo(s, lo, j - 1, m);
    }
  }

  /** Stripping removes exactly the whitespace padding around trimmed text. */
  lemma StripPadded(before: string, s: string, after: string)
    requires AllSpace(before) && AllSpace(after) && s != [] && Trimmed(s)
    ensures Strip(before + s + after) == s
  {
    var whole := before + s + after;
    var i, j := |before|, |before| + |s|;
    assert forall k :: 0 <= k < i ==> whole[k] == before[k];
    assert forall k :: j <= k < |whole| ==> whole[k] == after[k - j];
    assert whole[i] == s[0] && whole[j - 1] == s[|s| - 1];
    SkipSpacesTo(whole, 0, i);
    BackSpacesTo(whole, i, |whole|, j);
    assert whole[i..j] == s;
  }

  // ------------------------------------------------------------ splitting

  /** `s.split(",")`: the pieces between commas; always at least one. */
  function Split(s: string): (pieces: seq<string>)
    ensures |pieces| >= 1
    ensures forall p :: p in pieces ==> ',' !in p
  {
    if s == [] then [""]
    else
      var rest := Split(s[1..]);
      if s[0] == ',' then [""] + rest
      else [[s[0]] + rest[0]] + rest[1..]
  }

  /** `",".join(pieces)`. */
  function Join(pieces: seq<string>): string
    requires |pieces| >= 1
  {
    if |pieces| == 1 then pieces[0] else pieces[0] + "," + Join(pieces[1..])
  }

  /** Joining the pieces restores the text. */
  lemma {:induction false} JoinSplit(s: string)
    ensures Join(Split(s)) == s
  {
    if s != [] {
      JoinSplit(s[1..]);
      var rest := Split(s[1..]);
      if s[0] != ',' {
        if |rest| > 1 {
          assert Join(rest) == rest[0] + "," + Join(rest[1..]);
          assert Split(s)[1..] == rest[1..];
        }
      }
    }
  }

  /** Splitting comma-free pieces joined by commas gives the pieces back. */
  lemma {:induction false} SplitJoin(pieces: seq<string>)
    requires |pieces| >= 1 && forall p :: p in pieces ==> ',' !in p
    ensures Split(Join(pieces)) == pieces
  {
    if |pieces| == 1 {
      SplitCommaFree(pieces[0]);
    } else {
      assert forall p :: p in pieces[1..] ==> p in pieces;
      SplitJoin(pieces[1..]);
      assert pieces[0] in pieces;
      SplitPrefix(pieces[0], Join(pieces[1..]));
      assert [pieces[0]] + pieces[1..] == pieces;
    }
  }

  /** Text without a comma is one piece. */
  lemma {:induction false} SplitCommaFree(s: string)
    requires ',' !in s
    ensures Split(s) == [s]
  {
    if s != [] {
      assert ',' !in s[1..] by { assert forall c :: c in s[1..] ==> c in s; }
      SplitCommaFree(s[1..]);
      assert s[0] in s;
      assert [s[0]] + s[1..] == s;
    }
  }

  /** A comma-free head followed by a comma splits off as the first piece. */
  lemma {:induction false} SplitPrefix(head: string, tail: string)
    requires ',' !in head
    ensures Split(head + "," + tail) == [head] + Split(tail)
  {
    if head == [] {
      assert head + "," + tail == [','] + tail;
      assert ([','] + tail)[1..] == tail;
    } else {
      assert ',' !in head[1..] by { assert forall c :: c in head[1..] ==> c in head; }
      SplitPrefix(head[1..], tail);
      assert (head + "," + tail)[1..] == head[1..] + "," + tail;
      assert [head[0]] + head[1..] == head;
    }
  }

  // ----------------------------------------------------------- _split_tags

  /** `[p.strip() for p in pieces if p.strip()]`. */
  function Clean(pieces: seq<string>): (tags: seq<string>)
    ensures |tags| <= |pieces|
    ensures forall t :: t in tags ==> t != "" && Trimmed(t)
    ensures (forall p :: p in pieces ==> ',' !in p) ==> forall t :: t in tags ==> ',' !in t
  {
    if pieces == [] then []
    else
      var rest := Clean(pieces[1..]);
      assert forall p :: p in pieces[1..] ==> p in pieces;
      assert ',' !in pieces[0] ==> ',' !in Strip(pieces[0]) by {
        if ',' !in pieces[0] { StripKeepsOut(pieces[0], ','); }
      }
      if Strip(pieces[0]) != "" then [Strip(pieces[0])] + rest else rest
  }

  /** `_split_tags(raw_tags)`. */
  function SplitTags(raw: string): (tags: seq<string>)
    ensures forall t :: t in tags ==> t != ""
    ensures forall t :: t in tags ==> Trimmed(t)
    ensures forall t :: t in tags ==> ',' !in t
  {
    Clean(Split(raw))
  }

  /** Cleaning a single piece keeps its stripped text unless that is empty. */
  lemma CleanOne(p: string)
    ensures Clean([p]) == if Strip(p) == "" then [] else [Strip(p)]
  {
    assert [p][1..] == [];
  }

  /** Cleaning works piece by piece: it keeps the order of the pieces. */
  lemma {:induction false} CleanConcat(a: seq<string>, b: seq<string>)
    ensures Clean(a + b) == Clean(a) + Clean(b)
  {
    if a == [] {
      assert a + b == b;
    } else {
      assert (a + b)[0] == a[0] && (a + b)[1..] == a[1..] + b;
      CleanConcat(a[1..], b);
    }
  }

  /** A field with a comma yields the tags before the comma, then those
      after it. */
  lemma SplitTagsComma(head: string, tail: string)
    requires ',' !in head
    ensures SplitTags(head + "," + tail) == SplitTags(head) + SplitTags(tail)
  {
    SplitPrefix(head, tail);
    SplitCommaFree(head);
    CleanConcat([head], Split(tail));
  }

  /** A field without a comma yields its stripped text as the one tag, or no
      tag when it is blank. */
  lemma SplitTagsNoComma(raw: string)
    requires ',' !in raw
    ensures SplitTags(raw) == if AllSpace(raw) then [] else [Strip(raw)]
  {
    SplitCommaFree(raw);
    CleanOne(raw);
  }

  /** A piece that is already a clean tag strips to itself. */
  lemma StripTrimmed(s: string)
    requires Trimmed(s)
    ensures Strip(s) == s
  {
  }

  /** Cleaning keeps tags that are already clean, in order. */
  lemma {:induction false} CleanKeepsCleanTags(tags: seq<string>)
    requires forall t :: t in tags ==> t != "" && Trimmed(t)
    ensures Clean(tags) == tags
  {
    if tags != [] {
      StripTrimmed(tags[0]);
      assert forall t :: t in tags[1..] ==> t in tags;
      CleanKeepsCleanTags(tags[1..]);
    }
  }

  /** Clean tags joined by commas split back into the same tags. */
  lemma SplitTagsJoin(tags: seq<string>)
    requires |tags| >= 1
    requires forall t :: t in tags ==> t != "" && Trimmed(t) && ',' !in t
    ensures SplitTags(Join(tags)) == tags
  {
    SplitJoin(tags);
    CleanKeepsCleanTags(tags);
  }

  /** Stripping one leading blank from a clean tag gives the tag. */
  lemma StripLeadingBlank(t: string)
    requires t != "" && Trimmed(t)
    ensures Strip(" " + t) == t
  {
    assert AllSpace(" ") && AllSpace("");
    StripPadded(" ", t, "");
    assert " " + t + "" == " " + t;
  }

  /** The form example: an empty field has no tags. */
  lemma SplitTagsEmpty()
    ensures SplitTags("") == []
  {
    assert Strip("") == "";
  }

  lemma CommaFreeExample()
    ensures ',' !in " deep_repo"
  {
    var s := " deep_repo";
    assert forall k :: 0 <= k < |s| ==> s[k] != ',';
  }

  lemma SplitExample()
    ensures Split("coding, deep_repo") == ["coding", " deep_repo"]
  {
    CommaFreeExample();
    assert "coding" + "," + " deep_repo" == "coding, deep_repo";
    SplitPrefix("coding", " deep_repo");
    SplitCommaFree(" deep_repo");
  }

  lemma CleanExample()
    ensures Clean(["coding", " deep_repo"]) == ["coding", "deep_repo"]
  {
    StripTrimmed("coding");
    assert " deep_repo" == " " + "deep_repo";
    StripLeadingBlank("deep_repo");
    assert ["coding", " deep_repo"][1..] == [" deep_repo"];
    assert [" deep_repo"][1..] == [];
  }

  /** The form example: the pieces are stripped and kept in order. */
  lemma SplitTagsExample()
    ensures SplitTags("coding, deep_repo") == ["coding", "deep_repo"]
  {
    SplitExample();
    CleanExample();
  }

  lemma SplitBlanksExample()
    ensures Split("a,, ,b") == ["a", "", " ", "b"]
  {
    assert " " + "," + "b" == " ,b";
    SplitPrefix(" ", "b");
    SplitCommaFree("b");
    assert "" + "," + " ,b" == ", ,b";
    SplitPrefix("", " ,b");
    assert "a" + "," + ", ,b" == "a,, ,b";
    SplitPrefix("a", ", ,b");
  }

  lemma CleanBlanksExample()
    ensures Clean(["a", "", " ", "b"]) == ["a", "b"]
  {
    var ps := ["a", "", " ", "b"];
    assert AllSpace(" ");
    StripTrimmed("a");
    StripTrimmed("b");
    assert ps[1..] == ["", " ", "b"];
    assert ps[1..][1..] == [" ", "b"];
    assert ps[1..][1..][1..] == ["b"];
    assert ["b"][1..] == [];
  }

  /** Blank pieces between commas are dropped. */
  lemma SplitTagsDropsBlanks()
    ensures SplitTags("a,, ,b") == ["a", "b"]
  {
    SplitBlanksExample();
    CleanBlanksExample();
  }

  // ------------------------------------------------- _parse_optional_int

  predicate IsDigit(c: char)
  {
    '0' <= c <= '9'
  }

  /** Position `k` holds a digit, or an underscore between two digits. */
  predicate DigitOrSeparator(s: string, k: int)
    requires 0 <= k < |s|
  {
    IsDigit(s[k]) || (s[k] == '_' && 0 < k < |s| - 1 && IsDigit(s[k - 1]) && IsDigit(s[k + 1]))
  }

  /** The check `int()` makes character by character: at least one digit,
      and an underscore only between two digits. */
  predicate DigitRun(s: string)
  {
    s != [] && forall k :: 0 <= k < |s| ==> DigitOrSeparator(s, k)
  }

  /** The value `int()` accumulates over a digit run, skipping underscores. */
  function DigitsValue(s: string): nat
  {
    if s == [] then 0
    else if IsDigit(s[|s| - 1]) then DigitsValue(s[..|s| - 1]) * 10 + (s[|s| - 1] as int - '0' as int)
    else DigitsValue(s[..|s| - 1])
  }

  /** The number of digits `int()` counts, underscores not included. */
  function DigitCount(s: string): nat
  {
    if s == [] then 0 else DigitCount(s[..|s| - 1]) + (if IsDigit(s[|s| - 1]) then 1 else 0)
  }

  /** `sys.get_int_max_str_digits()` at its default: `int()` refuses decimal
      text with more digits than this. */
  const MaxStrDigits: nat := 4300

  /** The text after an optional leading sign. */
  function Unsigned(s: string): (body: string)
    ensures |body| <= |s|
  {
    if s != [] && (s[0] == '+' || s[0] == '-') then s[1..] else s
  }

  /** `int(value)` on text that carries no surrounding whitespace: an
      optional sign followed by a digit run of at most `MaxStrDigits`
      digits; `None` stands for `ValueError`. */
  function ParseInt(s: string): (n: Option<int>)
    ensures n.Some? <==> Literal(Unsigned(s)) && |Unscored(Unsigned(s))| <= MaxStrDigits
    ensures n.Some? ==> n.value == (if s[0] == '-' then -1 else 1) * ValueOf(Unscored(Unsigned(s)))
    ensures n.Some? ==> s != [] && forall k :: 0 <= k < |s| ==> !IsSpace(s[k])
  {
    var body := Unsigned(s);
    DigitRunIsLiteral(body);
    DigitCountUnscored(body);
    if DigitRun(body) && DigitCount(body) <= MaxStrDigits then
      assert forall k :: 0 <= k < |s| ==> !IsSpace(s[k]) by {
        forall k | 0 <= k < |s| ensures !IsSpace(s[k]) {
          if |body| == |s| {
            assert s[k] == body[k] && DigitOrSeparator(body, k);
          } else if k > 0 {
            assert s[k] == body[k - 1] && DigitOrSeparator(body, k - 1);
          } else {
            assert s[0] == '+' || s[0] == '-';
          }
        }
      }
      var v: int := DigitsValue(body);
      DigitsValueUnscored(body);
      Some(if s[0] == '-' then -v else v)
    else None
  }

  // ------------------------------------- the integer grammar, stated apart

  /** Groups of digits joined by single underscores: a digit at each end,
      nothing but digits and underscores, and no two underscores in a row. */
  predicate Literal(b: string)
  {
    && b != [] && IsDigit(b[0]) && IsDigit(b[|b| - 1])
    && (forall k :: 0 <= k < |b| ==> IsDigit(b[k]) || b[k] == '_')
    && (forall k :: 0 < k < |b| ==> Unpaired(b, k))
  }

  /** Positions `k - 1` and `k` do not both hold an underscore. */
  predicate Unpaired(b: string, k: int)
    requires 0 < k < |b|
  {
    !(b[k - 1] == '_' && b[k] == '_')
  }

  /** The digits of `s` with the underscores left out. */
  function Unscored(s: string): (ds: string)
    ensures |ds| <= |s|
  {
    if s == [] then []
    else Unscored(s[..|s| - 1]) + (if s[|s| - 1] == '_' then [] else [s[|s| - 1]])
  }

  function DigitValue(c: char): int
  {
    c as int - '0' as int
  }

  /** The positional base-10 value of a string of digits. */
  function ValueOf(ds: string): int
  {
    if ds == [] then 0 else ValueOf(ds[..|ds| - 1]) * 10 + DigitValue(ds[|ds| - 1])
  }

  /** The character-by-character check accepts exactly the grammar. */
  lemma DigitRunIsLiteral(s: string)
    ensures DigitRun(s) <==> Literal(s)
  {
    if DigitRun(s) {
      assert DigitOrSeparator(s, 0) && DigitOrSeparator(s, |s| - 1);
      assert forall k :: 0 <= k < |s| ==> IsDigit(s[k]) || s[k] == '_' by {
        forall k | 0 <= k < |s| ensures IsDigit(s[k]) || s[k] == '_' {
          assert DigitOrSeparator(s, k);
        }
      }
      forall k | 0 < k < |s| ensures Unpaired(s, k) {
        assert DigitOrSeparator(s, k - 1) && DigitOrSeparator(s, k);
      }
      assert Literal(s);
    }
    if Literal(s) {
      forall k | 0 <= k < |s| ensures DigitOrSeparator(s, k) {
        if s[k] == '_' {
          assert 0 < k < |s| - 1;
          assert Unpaired(s, k) && Unpaired(s, k + 1);
        }
      }
    }
  }

  /** Over digits and underscores, the accumulated value is the value of the
      digits alone. */
  lemma {:induction false} DigitsValueUnscored(s: string)
    requires forall k :: 0 <= k < |s| ==> IsDigit(s[k]) || s[k] == '_'
    ensures DigitsValue(s) == ValueOf(Unscored(s))
  {
    if s != [] {
      var init := s[..|s| - 1];
      DigitsValueUnscored(init);
      var ds := Unscored(init);
      if s[|s| - 1] != '_' {
        assert (ds + [s[|s| - 1]])[..|ds|] == ds;
      } else {
        assert ds + [] == ds;
      }
    }
  }

  /** Over digits and underscores, the digit count is the number of digits
      left once the underscores are dropped. */
  lemma {:induction false} DigitCountUnscored(s: string)
    ensures (forall k :: 0 <= k < |s| ==> IsDigit(s[k]) || s[k] == '_') ==> DigitCount(s) == |Unscored(s)|
  {
    if s != [] {
      DigitCountUnscored(s[..|s| - 1]);
    }
  }

  /** Digits only: nothing to drop. */
  lemma {:induction false} UnscoredDigits(ds: string)
    requires forall k :: 0 <= k < |ds| ==> IsDigit(ds[k])
    ensures Unscored(ds) == ds
  {
    if ds != [] {
      UnscoredDigits(ds[..|ds| - 1]);
      assert ds[..|ds| - 1] + [ds[|ds| - 1]] == ds;
    }
  }

  /** A plain run of digits parses exactly when it has at most
      `MaxStrDigits` digits, leading zeros included. */
  lemma DigitLimit(ds: string)
    requires ds != [] && forall k :: 0 <= k < |ds| ==> IsDigit(ds[k])
    ensures ParseInt(ds).Some? <==> |ds| <= MaxStrDigits
  {
    UnscoredDigits(ds);
    assert Unsigned(ds) == ds;
  }

  /** Four thousand three hundred and one ones are refused. */
  lemma TooManyDigits()
    ensures ParseInt(seq(MaxStrDigits + 1, _ => '1')) == None
  {
    DigitLimit(seq(MaxStrDigits + 1, _ => '1'));
  }

  /** `_parse_optional_int(raw_value)`: a blank field is no value, any other
      field must be an integer literal once stripped. */
  function ParseOptionalInt(raw: string): (r: Result<Option<int>>)
    ensures r == Ok(None) <==> AllSpace(raw)
    ensures r.Err? ==> r.failure == NotAnInteger && !AllSpace(raw)
    ensures r.Ok? && r.value.Some? ==> Strip(raw) != [] && ParseInt(Strip(raw)) == r.value
    ensures r.Err? <==> !AllSpace(raw) && ParseInt(Strip(raw)).None?
  {
    var value := Strip(raw);
    if value == [] then Ok(None)
    else
      match ParseInt(value)
      case None => Err(NotAnInteger)
      case Some(n) => Ok(Some(n))
  }

  function DigitChar(d: nat): (c: char)
    requires d < 10
    ensures IsDigit(c) && c as int - '0' as int == d
  {
    ('0' as int + d) as char
  }

  /** The decimal digits of `n`, most significant first. */
  function NatDigits(n: nat): (s: string)
    ensures s != [] && forall k :: 0 <= k < |s| ==> IsDigit(s[k])
    ensures DigitsValue(s) == n
  {
    if n < 10 then [DigitChar(n)]
    else
      var s := NatDigits(n / 10) + [DigitChar(n % 10)];
      assert s[..|s| - 1] == NatDigits(n / 10);
      s
  }

  /** `str(n)`: the canonical decimal rendering of an integer. */
  function Decimal(n: int): (s: string)
    ensures s != [] && Trimmed(s)
  {
    if n < 0 then "-" + NatDigits(-n) else NatDigits(n)
  }

  function Abs(n: int): nat
  {
    if n < 0 then -n else n
  }

  /** Every integer's decimal rendering parses back to it, unless it has
      more than `MaxStrDigits` digits, when `int()` refuses it. */
  lemma ParseIntDecimal(n: int)
    ensures ParseInt(Decimal(n)) == if |NatDigits(Abs(n))| <= MaxStrDigits then Some(n) else None
  {
    var ds := NatDigits(Abs(n));
    assert Unsigned(Decimal(n)) == ds;
    DigitRunIsLiteral(ds);
    UnscoredDigits(ds);
    DigitCountUnscored(ds);
    DigitsValueUnscored(ds);
  }

  /** Round trip: a form field holding an integer's decimal rendering, with
      any whitespace around it, parses to that integer, unless the rendering
      has more than `MaxStrDigits` digits. */
  lemma ParseOptionalIntDecimal(before: string, n: int, after: string)
    requires AllSpace(before) && AllSpace(after)
    ensures ParseOptionalInt(before + Decimal(n) + after)
            == if |NatDigits(Abs(n))| <= MaxStrDigits then Ok(Some(n)) else Err(NotAnInteger)
  {
    StripPadded(before, Decimal(n), after);
    ParseIntDecimal(n);
  }

  /** The form examples for the renewal day: blank fields have no value. */
  lemma ParseOptionalIntBlank()
    ensures ParseOptionalInt("") == Ok(None)
    ensures ParseOptionalInt("  ") == Ok(None)
  {
    assert AllSpace("  ");
  }

  /** The form example for the renewal day: a bare number. */
  lemma ParseOptionalIntNumber()
    ensures ParseOptionalInt("8") == Ok(Some(8))
  {
    assert NatDigits(8) == "8" && Abs(8) == 8;
    ParseOptionalIntDecimal("", 8, "");
    assert "" + "8" + "" == "8";
  }

  /** A number padded with blanks. */
  lemma ParseOptionalIntPadded()
    ensures ParseOptionalInt(" 12 ") == Ok(Some(12))
  {
    var twelve := Decimal(12);
    assert twelve == "12" by {
      assert NatDigits(12) == NatDigits(1) + [DigitChar(2)];
    }
    assert AllSpace(" ");
    StripPadded(" ", twelve, " ");
    assert " " + twelve + " " == " 12 ";
    ParseIntDecimal(12);
    assert |NatDigits(Abs(12))| <= MaxStrDigits;
  }

  /** The form examples for the renewal day: a word is refused. */
  lemma ParseOptionalIntWord()
    ensures ParseOptionalInt("eight") == Err(NotAnInteger)
  {
    StripTrimmed("eight");
    assert !DigitOrSeparator("eight", 0);
  }

  /** Underscores are accepted only between digits, as `int()` does. */
  lemma ParseIntUnderscores()
    ensures ParseInt("1_000") == Some(1000)
    ensures ParseInt("_1") == None
    ensures ParseInt("1__0") == None
    ensures ParseInt("-7") == Some(-7)
  {
    assert DigitRun("1_000") by {
      var s := "1_000";
      assert forall k :: 0 <= k < |s| ==> s[k] == '1' || s[k] == '_' || s[k] == '0';
      assert s[0] == '1' && s[1] == '_' && s[2] == '0';
    }
    assert DigitsValue("1_000") == 1000 by {
      assert "1_000"[..4] == "1_00";
      assert "1_00"[..3] == "1_0";
      assert "1_0"[..2] == "1_";
      assert "1_"[..1] == "1";
      assert "1"[..0] == "";
    }
    assert !DigitOrSeparator("_1", 0);
    assert !DigitOrSeparator("1__0", 1);
    assert "-7"[1..] == "7";
    assert DigitsValue("7") == 7 by { assert "7"[..0] == ""; }
  }
}
