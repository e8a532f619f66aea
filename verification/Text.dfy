/** The string operations the components share, on ASCII text. */
module Text {
  import opened Wrappers

  predicate IsSpace(c: char) {
    c == ' ' || 9 <= c as int <= 13
  }

  function TrimLeft(s: string): string {
    if s != "" && IsSpace(s[0]) then TrimLeft(s[1..]) else s
  }

  function TrimRight(s: string): string {
    if s != "" && IsSpace(s[|s| - 1]) then TrimRight(s[..|s| - 1]) else s
  }

  function Trim(s: string): string {
    TrimRight(TrimLeft(s))
  }

  predicate NoSpace(s: string) {
    forall c | c in s :: !IsSpace(c)
  }

  // Blanks are the space, the tab, line feed, carriage return, vertical tab and form feed.
  lemma SpacesAre(c: char)
    ensures IsSpace(c) <==> c in {' ', '\t', '\n', '\r', '\U{000B}', '\U{000C}'}
  {
  }

  predicate AllSpace(s: string) {
    forall c | c in s :: IsSpace(c)
  }

  // Trimming cuts all blanks at both ends and nothing else.
  lemma TrimIs(s: string) returns (left: string, right: string)
    ensures s == left + Trim(s) + right && AllSpace(left) && AllSpace(right)
    ensures Trim(s) != "" ==> !IsSpace(Trim(s)[0]) && !IsSpace(Trim(s)[|Trim(s)| - 1])
  {
    left := TrimLeftIs(s);
    right := TrimRightIs(TrimLeft(s));
    TrimIsSuffix(s);
    TrimRightShape(TrimLeft(s));
  }

  lemma {:induction false} TrimLeftIs(s: string) returns (left: string)
    ensures s == left + TrimLeft(s) && AllSpace(left)
  {
    left := "";
    if s != "" && IsSpace(s[0]) {
      left := TrimLeftIs(s[1..]);
      left := [s[0]] + left;
    }
  }

  lemma {:induction false} TrimRightIs(s: string) returns (right: string)
    ensures s == TrimRight(s) + right && AllSpace(right)
  {
    right := "";
    if s != "" && IsSpace(s[|s| - 1]) {
      right := TrimRightIs(s[..|s| - 1]);
      right := right + [s[|s| - 1]];
    }
  }

  const SMALL := "abcdefghijklmnopqrstuvwxyz"
  const LARGE := "ABCDEFGHIJKLMNOPQRSTUVWXYZ"

  lemma SmallAre(c: char)
    ensures c in SMALL <==> 'a' <= c <= 'z'
  {
    if 'a' <= c <= 'z' { assert SMALL[c as int - 'a' as int] == c; }
  }

  lemma LargeAre(c: char)
    ensures c in LARGE <==> 'A' <= c <= 'Z'
  {
    if 'A' <= c <= 'Z' { assert LARGE[c as int - 'A' as int] == c; }
  }

  // Letter by letter, and nothing but letters.
  lemma CaseIs(c: char)
    ensures Lower(LARGE) == SMALL && Upper(SMALL) == LARGE
    ensures (c !in LARGE ==> LowerChar(c) == c) && (c !in SMALL ==> UpperChar(c) == c)
  {
    LargeAre(c);
    SmallAre(c);
  }

  lemma TrimNoSpace(s: string)
    requires NoSpace(s)
    ensures Trim(s) == s
  {
  }

  lemma {:induction false} TrimmedEnds(s: string)
    requires s != "" && !IsSpace(s[0]) && !IsSpace(s[|s| - 1])
    ensures Trim(s) == s
  {
  }

  lemma {:induction false} TrimIsSuffix(s: string)
    ensures TrimLeft(s) != "" ==> !IsSpace(TrimLeft(s)[0])
    ensures |TrimLeft(s)| <= |s|
  {
    if s != "" && IsSpace(s[0]) { TrimIsSuffix(s[1..]); }
  }

  lemma {:induction false} TrimRightShape(s: string)
    ensures |TrimRight(s)| <= |s| && TrimRight(s) <= s
    ensures TrimRight(s) != "" ==> !IsSpace(TrimRight(s)[|TrimRight(s)| - 1])
  {
    if s != "" && IsSpace(s[|s| - 1]) { TrimRightShape(s[..|s| - 1]); }
  }

  lemma {:induction false} TrimTwice(s: string)
    ensures Trim(Trim(s)) == Trim(s)
  {
    TrimIsSuffix(s);
    TrimRightShape(TrimLeft(s));
    if Trim(s) != "" { TrimmedEnds(Trim(s)); }
  }

  lemma LowerTwice(s: string)
    ensures Lower(Lower(s)) == Lower(s)
  {
  }

  function LowerChar(c: char): char {
    if 'A' <= c <= 'Z' then (c as int + 32) as char else c
  }

  function UpperChar(c: char): char {
    if 'a' <= c <= 'z' then (c as int - 32) as char else c
  }

  function Lower(s: string): string {
    seq(|s|, i requires 0 <= i < |s| => LowerChar(s[i]))
  }

  function Upper(s: string): string {
    seq(|s|, i requires 0 <= i < |s| => UpperChar(s[i]))
  }

  predicate HasPrefix(s: string, prefix: string) {
    prefix <= s
  }

  // Byte order on strings.
  predicate LexLeq(a: string, b: string) {
    if a == "" then true
    else if b == "" then false
    else if a[0] != b[0] then a[0] < b[0]
    else LexLeq(a[1..], b[1..])
  }

  lemma {:induction false} LexTotal(a: string, b: string)
    ensures LexLeq(a, b) || LexLeq(b, a)
    ensures LexLeq(a, b) && LexLeq(b, a) ==> a == b
    ensures LexLeq(a, a)
  {
    if a != "" { LexTotal(a[1..], if b == "" then a[1..] else b[1..]); }
    if a != "" && b != "" && a[0] == b[0] {
      assert a == [a[0]] + a[1..] && b == [b[0]] + b[1..];
    }
  }

  lemma {:induction false} LexTransitive(a: string, b: string, c: string)
    requires LexLeq(a, b) && LexLeq(b, c)
    ensures LexLeq(a, c)
  {
    if a != "" && a[0] == b[0] && b[0] == c[0] { LexTransitive(a[1..], b[1..], c[1..]); }
  }

  function Without(s: string, c: char): string {
    if s == "" then "" else if s[0] == c then Without(s[1..], c) else [s[0]] + Without(s[1..], c)
  }

  lemma {:induction false} WithoutAppend(a: string, b: string, c: char)
    ensures Without(a + b, c) == Without(a, c) + Without(b, c)
  {
    if a == "" {
      assert a + b == b;
    } else {
      assert (a + b)[1..] == a[1..] + b;
      WithoutAppend(a[1..], b, c);
    }
  }

  lemma {:induction false} WithoutNothing(s: string, c: char)
    requires c !in s
    ensures Without(s, c) == s
  {
    if s != "" {
      WithoutNothing(s[1..], c);
      assert s == [s[0]] + s[1..];
    }
  }

  // ---------------------------------------------------------------- pieces

  // Where a character first occurs, or the length.
  function IndexOf(s: string, c: char): (i: nat)
    ensures i <= |s|
  {
    if s == "" || s[0] == c then 0 else 1 + IndexOf(s[1..], c)
  }

  lemma {:induction false} IndexOfMeaning(s: string, c: char)
    ensures c !in s[..IndexOf(s, c)]
    ensures IndexOf(s, c) < |s| ==> s[IndexOf(s, c)] == c
  {
    if s != "" && s[0] != c {
      IndexOfMeaning(s[1..], c);
      var i := IndexOf(s, c);
      assert s[..i] == [s[0]] + s[1..][..i - 1];
    }
  }

  // The pieces between separators; always at least one.
  function Split(s: string, c: char): (r: seq<string>)
    ensures |r| >= 1
    decreases |s|
  {
    var i := IndexOf(s, c);
    if i == |s| then [s] else [s[..i]] + Split(s[i + 1..], c)
  }

  function Join(parts: seq<string>, c: char): string
    requires |parts| >= 1
  {
    if |parts| == 1 then parts[0] else parts[0] + [c] + Join(parts[1..], c)
  }

  lemma {:induction false} IndexOfFirst(a: string, b: string, c: char)
    requires c !in a
    ensures IndexOf(a + [c] + b, c) == |a|
  {
    var s := a + [c] + b;
    if a != "" {
      assert s[1..] == a[1..] + [c] + b;
      IndexOfFirst(a[1..], b, c);
    }
  }

  lemma IndexOfNone(s: string, c: char)
    requires c !in s
    ensures IndexOf(s, c) == |s|
  {
  }

  // Splitting at the first separator.
  lemma SplitStep(head: string, rest: string, c: char)
    requires c !in head
    ensures Split(head + [c] + rest, c) == [head] + Split(rest, c)
  {
    var s := head + [c] + rest;
    IndexOfFirst(head, rest, c);
    hide IndexOf;
    assert s[..|head|] == head && s[|head| + 1..] == rest;
  }

  lemma SplitLast(s: string, c: char)
    requires c !in s
    ensures Split(s, c) == [s]
  {
    IndexOfNone(s, c);
  }

  lemma JoinStep(head: string, rest: seq<string>, c: char)
    requires rest != []
    ensures Join([head] + rest, c) == head + [c] + Join(rest, c)
  {
    assert ([head] + rest)[1..] == rest;
  }

  // Splitting undoes joining, and joining undoes splitting.
  lemma {:induction false} SplitJoin(parts: seq<string>, c: char)
    requires |parts| >= 1 && forall p | p in parts :: c !in p
    ensures Split(Join(parts, c), c) == parts
  {
    hide Split;
    assert parts[0] in parts;
    if |parts| == 1 {
      SplitLast(parts[0], c);
      assert parts == [parts[0]];
    } else {
      hide Join;
      assert parts == [parts[0]] + parts[1..];
      JoinStep(parts[0], parts[1..], c);
      SplitStep(parts[0], Join(parts[1..], c), c);
      SplitJoin(parts[1..], c);
    }
  }

  lemma {:induction false} JoinSplit(s: string, c: char)
    ensures Join(Split(s, c), c) == s
    ensures forall p | p in Split(s, c) :: c !in p
    decreases |s|
  {
    hide Split, Join;
    var i := IndexOf(s, c);
    IndexOfMeaning(s, c);
    hide IndexOf;
    if i < |s| {
      var head, rest := s[..i], s[i + 1..];
      assert s == head + [c] + rest;
      SplitStep(head, rest, c);
      JoinSplit(rest, c);
      JoinStep(head, Split(rest, c), c);
    } else {
      assert s[..i] == s;
      SplitLast(s, c);
      JoinOne(s, c);
    }
  }

  lemma JoinOne(s: string, c: char)
    ensures Join([s], c) == s
  {
  }

  // The maximal runs of non-space characters.
  function Fields(s: string): seq<string>
    decreases |s|
  {
    if s == "" then []
    else if IsSpace(s[0]) then Fields(s[1..])
    else
      var n := WordLength(s);
      [s[..n]] + Fields(s[n..])
  }

  function WordLength(s: string): (n: nat)
    ensures n <= |s|
    ensures s != "" && !IsSpace(s[0]) ==> n >= 1
    ensures forall i | 0 <= i < n :: !IsSpace(s[i])
    ensures n < |s| ==> IsSpace(s[n])
  {
    if s == "" || IsSpace(s[0]) then 0 else 1 + WordLength(s[1..])
  }

  lemma {:induction false} FieldsHaveNoSpace(s: string)
    ensures forall f | f in Fields(s) :: f != "" && NoSpace(f)
    decreases |s|
  {
    if s == "" {
    } else if IsSpace(s[0]) {
      FieldsHaveNoSpace(s[1..]);
    } else {
      FieldsHaveNoSpace(s[WordLength(s)..]);
    }
  }

  lemma {:induction false} WordEnds(word: string, tail: string)
    requires tail != "" ==> IsSpace(tail[0])
    ensures WordLength(word + tail) == WordLength(word)
  {
    if word != "" && !IsSpace(word[0]) {
      assert (word + tail)[1..] == word[1..] + tail;
      WordEnds(word[1..], tail);
    } else if word == "" {
      assert word + tail == tail;
    } else {
      assert (word + tail)[0] == word[0];
    }
  }

  lemma {:induction false} WholeWord(word: string)
    requires NoSpace(word)
    ensures WordLength(word) == |word|
  {
    if word != "" { WholeWord(word[1..]); }
  }

  lemma {:induction false} FieldsOfWord(word: string)
    requires word != "" && NoSpace(word)
    ensures Fields(word) == [word]
  {
    WholeWord(word);
    assert word[..|word|] == word && word[|word|..] == "";
  }

  // A blank separates words.
  lemma {:induction false} FieldsApart(a: string, c: char, b: string)
    requires IsSpace(c)
    ensures Fields(a + [c] + b) == Fields(a) + Fields(b)
    decreases |a|
  {
    var s := a + [c] + b;
    if a == "" {
      assert s[1..] == b;
    } else if IsSpace(a[0]) {
      assert s[1..] == a[1..] + [c] + b;
      FieldsApart(a[1..], c, b);
    } else {
      var n := WordLength(a);
      assert s == a + ([c] + b);
      WordEnds(a, [c] + b);
      assert s[..n] == a[..n] && s[n..] == a[n..] + [c] + b;
      FieldsApart(a[n..], c, b);
    }
  }

  lemma {:induction false} FieldsWord(word: string, rest: string)
    requires word != "" && NoSpace(word)
    ensures Fields(word) == [word]
    ensures Fields(word + " " + rest) == [word] + Fields(rest)
  {
    FieldsOfWord(word);
    FieldsApart(word, ' ', rest);
  }

  lemma {:induction false} FieldsTrimmed(s: string)
    ensures Fields(Trim(s)) == Fields(s)
  {
    FieldsTrimLeft(s);
    FieldsTrimRight(TrimLeft(s));
  }

  lemma {:induction false} FieldsTrimLeft(s: string)
    ensures Fields(TrimLeft(s)) == Fields(s)
  {
    if s != "" && IsSpace(s[0]) { FieldsTrimLeft(s[1..]); }
  }

  lemma {:induction false} FieldsTrimRight(s: string)
    ensures Fields(TrimRight(s)) == Fields(s)
  {
    if s != "" && IsSpace(s[|s| - 1]) {
      FieldsTrimRight(s[..|s| - 1]);
      FieldsApart(s[..|s| - 1], s[|s| - 1], "");
      assert s == s[..|s| - 1] + [s[|s| - 1]] + "";
    }
  }

  // The words of several texts.
  function AllWords(texts: seq<string>): seq<string> {
    if texts == [] then [] else Fields(texts[0]) + AllWords(texts[1..])
  }

  lemma {:induction false} AllWordsAre(texts: seq<string>, w: string)
    ensures w in AllWords(texts) <==> exists t | t in texts :: w in Fields(t)
  {
    hide Fields;
    if texts != [] {
      var head, rest := texts[0], texts[1..];
      AllWordsAre(rest, w);
      if w in AllWords(texts) && w !in Fields(head) {
        var t :| t in rest && w in Fields(t);
        assert t in texts;
      }
      if exists t | t in texts :: w in Fields(t) {
        var t :| t in texts && w in Fields(t);
        assert t == head || t in rest;
      }
    }
  }

  lemma {:induction false} WordsOfJoined(texts: seq<string>)
    requires texts != []
    ensures Fields(Join(texts, ' ')) == AllWords(texts)
  {
    hide Fields;
    if |texts| == 1 {
      assert AllWords(texts[1..]) == [];
    } else {
      WordsOfJoined(texts[1..]);
      FieldsApart(texts[0], ' ', Join(texts[1..], ' '));
    }
  }

  lemma {:induction false} FieldsKeepChars(s: string)
    ensures forall w, c | w in Fields(s) && c in w :: c in s
    decreases |s|
  {
    if s == "" {
    } else if IsSpace(s[0]) {
      FieldsKeepChars(s[1..]);
    } else {
      FieldsKeepChars(s[WordLength(s)..]);
    }
  }

  // ---------------------------------------------------------------- numbers

  predicate IsDigit(c: char) {
    '0' <= c <= '9'
  }

  function DigitValue(c: char): (v: nat)
    requires IsDigit(c)
    ensures v <= 9
  {
    c as int - '0' as int
  }

  predicate AllDigits(s: string) {
    s != "" && forall c | c in s :: IsDigit(c)
  }

  function DecimalValue(s: string): nat
    requires forall c | c in s :: IsDigit(c)
  {
    if s == "" then 0 else 10 * DecimalValue(s[..|s| - 1]) + DigitValue(s[|s| - 1])
  }

  const MAX_INT := 0x7fff_ffff_ffff_ffff

  // An optional sign, then digits, within 64 bits.
  function Atoi(s: string): (r: Option<int>)
    ensures r.Some? ==> -MAX_INT - 1 <= r.value <= MAX_INT
  {
    if s == "" then None
    else
      var negative := s[0] == '-';
      var digits := if s[0] == '-' || s[0] == '+' then s[1..] else s;
      if !AllDigits(digits) then None
      else
        var v: int := DecimalValue(digits);
        if negative then (if v <= MAX_INT + 1 then Some(-(v as int)) else None)
        else if v <= MAX_INT then Some(v) else None
  }

  function Itoa(n: nat): (s: string)
    ensures AllDigits(s)
  {
    if n < 10 then [(n + '0' as int) as char] else Itoa(n / 10) + [(n % 10 + '0' as int) as char]
  }

  lemma {:induction false} ItoaValue(n: nat)
    ensures DecimalValue(Itoa(n)) == n
  {
    var s := Itoa(n);
    if n < 10 {
      assert s[..|s| - 1] == "";
    } else {
      ItoaValue(n / 10);
      assert s[..|s| - 1] == Itoa(n / 10);
    }
  }

  lemma ItoaInjective(m: nat, n: nat)
    requires Itoa(m) == Itoa(n)
    ensures m == n
  {
    ItoaValue(m);
    ItoaValue(n);
  }

  // Decimal numbers are read back as far as they fit into 64 bits, signed ones too.
  lemma {:induction false} AtoiIs(n: nat)
    ensures Atoi(Itoa(n)) == if n <= 9223372036854775807 then Some(n) else None
    ensures Atoi("-" + Itoa(n)) == if n <= 9223372036854775808 then Some(-(n as int)) else None
    ensures '-' !in Itoa(n) && '/' !in Itoa(n)
  {
    ItoaValue(n);
    var text := Itoa(n);
    assert text != "" && text[0] in text && ("-" + text)[1..] == text;
    hide DecimalValue, Itoa;
  }
}
