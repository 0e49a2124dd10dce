/** Documents that are read back exactly: any order of the three fields, any spacing. */
module Documents {
  import opened Parser

  // ---------------------------------------------------------------- decimal numerals

  function Digits(n: nat): string {
    (if n < 10 then "" else Digits(n / 10)) + [('0' as nat + n % 10) as char]
  }

  function Decimal(n: int): string {
    if n < 0 then "-" + Digits(-n) else Digits(n)
  }

  lemma DigitChar(d: nat)
    requires d < 10
    ensures ('0' as nat + d) as char in DIGITS && DigitValue(('0' as nat + d) as char) == d
  {}

  lemma {:induction false} DigitsBack(n: nat)
    ensures Digits(n) != "" && AllDigits(Digits(n)) && DigitsValue(Digits(n)) == n
  {
    DigitChar(n % 10);
    var front := if n < 10 then "" else Digits(n / 10);
    if n >= 10 {
      DigitsBack(n / 10);
    }
    var last := ('0' as nat + n % 10) as char;
    assert Digits(n)[..|front|] == front && Digits(n)[|front|] == last;
  }

  lemma DecimalBack(n: int)
    ensures IsNumeral(Decimal(n)) && NumeralValue(Decimal(n)) == n
    ensures Tight(Decimal(n)) && Decimal(n) != "" && Plain(Decimal(n)) && forall c :: c in Decimal(n) ==> c !in BLANKS
  {
    hide Digits;
    if n < 0 {
      DigitsBack(-n);
      NumeralOf("-", Digits(-n));
    } else {
      DigitsBack(n);
      NumeralOf("", Digits(n));
      assert "" + Digits(n) == Digits(n);
    }
  }

  lemma NumeralOf(sign: string, digits: string)
    requires (sign == "" || sign == "-") && digits != "" && AllDigits(digits)
    ensures var text := sign + digits;
            && IsNumeral(text)
            && (if sign == "-" then NumeralValue(text) + DigitsValue(digits) == 0
                else NumeralValue(text) == DigitsValue(digits))
            && Tight(text) && text != "" && Plain(text) && forall c :: c in text ==> c !in BLANKS
  {
    hide DigitsValue;
    var text := sign + digits;
    assert text[|sign|..] == digits;
    assert text[|sign|] == digits[0];
  }

  // ---------------------------------------------------------------- documents

  /** Characters that mean nothing outside a value: digits, the minus sign, blanks. */
  predicate Plain(text: string) {
    forall i :: 0 <= i < |text| ==> text[i] in DIGITS || text[i] == '-' || text[i] in BLANKS
  }

  datatype Name = InputA | InputB | TimeoutMs

  function Label(n: Name): string {
    match n case InputA => "input_a" case InputB => "input_b" case TimeoutMs => "timeout_ms"
  }

  /** A number with blanks on either side. */
  datatype Cell = Cell(before: string, number: int, after: string)

  predicate CellOk(c: Cell) {
    Blank(c.before) && Blank(c.after)
  }

  function CellText(c: Cell): string {
    c.before + Decimal(c.number) + c.after
  }

  /** One `"name" : value`; `left` and `right` are the blanks around the colon. An array value has one
      cell per element, the timeout is one number. */
  datatype Field = Field(name: Name, left: string, right: string, cells: seq<Cell>)

  predicate FieldOk(f: Field) {
    && Blank(f.left) && Blank(f.right) && (forall k :: 0 <= k < |f.cells| ==> CellOk(f.cells[k]))
    && (if f.name.TimeoutMs? then |f.cells| == 1 && 0 < f.cells[0].number < 0x8000_0000
        else |f.cells| == 8 && forall k :: 0 <= k < 8 ==> -0x80 <= f.cells[k].number < 0x80)
  }

  function CellTexts(cells: seq<Cell>): seq<string> {
    seq(|cells|, k requires 0 <= k < |cells| => CellText(cells[k]))
  }

  function FieldNumbers(f: Field): seq<int> {
    seq(|f.cells|, k requires 0 <= k < |f.cells| => f.cells[k].number)
  }

  /** What follows the label, up to the separator. */
  function FieldTail(f: Field): string
    requires FieldOk(f)
  {
    f.left + ":" + f.right
    + if f.name.TimeoutMs? then CellText(f.cells[0]) else "[" + Join(CellTexts(f.cells)) + "]"
  }

  function FieldText(f: Field): string
    requires FieldOk(f)
  {
    Quoted(Label(f.name)) + FieldTail(f)
  }

  /** Blanks around the three fields and their separators. */
  datatype Layout = Layout(lead: string, gaps: seq<string>, ends: seq<string>, tail: string)

  predicate LayoutOk(l: Layout) {
    && |l.gaps| == 3 && |l.ends| == 3 && Blank(l.lead) && Blank(l.tail)
    && forall k :: 0 <= k < 3 ==> Blank(l.gaps[k]) && Blank(l.ends[k])
  }

  predicate FieldsOk(fs: seq<Field>) {
    && |fs| == 3 && (forall k :: 0 <= k < 3 ==> FieldOk(fs[k]))
    && fs[0].name != fs[1].name && fs[0].name != fs[2].name && fs[1].name != fs[2].name
  }

  function Head(l: Layout): string
    requires LayoutOk(l)
  {
    l.lead + "{" + l.gaps[0]
  }

  function Separator(l: Layout, k: nat): string
    requires LayoutOk(l) && k < 2
  {
    l.ends[k] + "," + l.gaps[k + 1]
  }

  function Close(l: Layout): string
    requires LayoutOk(l)
  {
    l.ends[2] + "}" + l.tail
  }

  function Document(l: Layout, fs: seq<Field>): string
    requires LayoutOk(l) && FieldsOk(fs)
  {
    Head(l) + FieldText(fs[0]) + Separator(l, 0) + FieldText(fs[1]) + Separator(l, 1) + FieldText(fs[2]) + Close(l)
  }

  // ---------------------------------------------------------------- searching a concatenation

  predicate NoneOf(text: string, cs: set<char>) {
    forall i :: 0 <= i < |text| ==> text[i] !in cs
  }

  lemma NoneOfConcat(a: string, b: string, cs: set<char>)
    ensures NoneOf(a + b, cs) <==> NoneOf(a, cs) && NoneOf(b, cs)
  {
    assert forall i :: 0 <= i < |a| ==> (a + b)[i] == a[i];
    assert forall i :: 0 <= i < |b| ==> (a + b)[|a| + i] == b[i];
    assert forall i :: |a| <= i < |a + b| ==> (a + b)[i] == b[i - |a|];
  }

  lemma FirstIn(pre: string, mid: string, c: char, post: string, cs: set<char>)
    requires NoneOf(mid, cs) && c in cs
    ensures First(pre + mid + [c] + post, cs, |pre|) == |pre| + |mid|
  {
    var text := pre + mid + [c] + post;
    assert forall j :: |pre| <= j < |pre| + |mid| ==> text[j] == mid[j - |pre|];
    FirstEnd(text, cs, |pre| + |mid|, |pre|);
  }

  lemma FirstNotIn(pre: string, mid: string, c: char, post: string, cs: set<char>)
    requires (forall i :: 0 <= i < |mid| ==> mid[i] in cs) && c !in cs
    ensures FirstNot(pre + mid + [c] + post, cs, |pre|) == |pre| + |mid|
  {
    var text := pre + mid + [c] + post;
    assert forall j :: |pre| <= j < |pre| + |mid| ==> text[j] == mid[j - |pre|];
    assert text[|pre| + |mid|] == c;
  }

  /** No occurrence of the key begins inside `s`, when `rest` follows. */
  predicate Absent(s: string, key: string, rest: string) {
    forall j :: 0 <= j < |s| ==> !OccursAt(s + rest, key, j)
  }

  lemma FindAfter(pre: string, key: string, rest: string)
    requires Absent(pre, key, key + rest) && key != ""
    ensures Find(pre + key + rest, key, 0) == |pre|
  {
    var text := pre + key + rest;
    assert text == pre + (key + rest);
    assert text[|pre|..|pre| + |key|] == key;
    assert OccursAt(text, key, |pre|);
  }

  lemma AbsentConcat(s1: string, s2: string, key: string, rest: string)
    requires Absent(s1, key, s2 + rest) && Absent(s2, key, rest)
    ensures Absent(s1 + s2, key, rest)
  {
    assert s1 + s2 + rest == s1 + (s2 + rest);
    forall j | 0 <= j < |s1 + s2|
      ensures !OccursAt(s1 + s2 + rest, key, j)
    {
      if j >= |s1| {
        var k := j - |s1|;
        assert !OccursAt(s2 + rest, key, k);
        if j + |key| <= |s1 + s2 + rest| {
          assert (s1 + s2 + rest)[j..j + |key|] == (s2 + rest)[k..k + |key|];
        }
      }
    }
  }

  /** A key begins with a quote, so it cannot begin where there is none. */
  lemma AbsentQuoteFree(s: string, key: string, rest: string)
    requires NoneOf(s, {'"'}) && key != "" && key[0] == '"'
    ensures Absent(s, key, rest)
  {
    forall j | 0 <= j < |s|
      ensures !OccursAt(s + rest, key, j)
    {
      assert (s + rest)[j] == s[j];
      if j + |key| <= |s + rest| {
        assert (s + rest)[j..j + |key|][0] == s[j];
      }
    }
  }

  /** Another label is not the key: the names differ, and what follows a closing quote starts no name. */
  lemma AbsentLabel(n: Name, m: Name, rest: string)
    requires n != m && rest != "" && rest[0] != 'i' && rest[0] != 't'
    ensures Absent(Quoted(Label(n)), Quoted(Label(m)), rest)
  {
    var s, key := Quoted(Label(n)), Quoted(Label(m));
    var text := s + rest;
    LabelShape(n);
    LabelShape(m);
    forall j | 0 <= j < |s|
      ensures !OccursAt(text, key, j)
    {
      if j + |key| <= |text| {
        var window := text[j..j + |key|];
        assert window[0] == s[j];
        assert j == 0 ==> window[1] == s[1] && window[7] == s[7];
        assert j == |s| - 1 ==> window[1] == rest[0];
      }
    }
  }

  /** A quoted label: quotes at its ends only, told apart by its second and eighth characters. */
  lemma LabelShape(n: Name)
    ensures var s := Quoted(Label(n));
            && |s| >= 9 && s[0] == '"' && (forall j :: 0 < j < |s| - 1 ==> s[j] != '"')
            && s[1] == (if n.TimeoutMs? then 't' else 'i')
            && (n.InputA? ==> s[7] == 'a') && (n.InputB? ==> s[7] == 'b')
            && NoneOf(s, {'[', ':'})
  {
    var s := Quoted(Label(n));
    match n {
      case InputA => assert s == "\"input_a\"";
      case InputB => assert s == "\"input_b\"";
      case TimeoutMs => assert s == "\"timeout_ms\"";
    }
  }

  // ---------------------------------------------------------------- what a field is made of

  const MARKS: set<char> := {'"', '[', ']', ':', '{', '}'}

  lemma PlainHasNoMarks(text: string)
    requires Plain(text)
    ensures NoneOf(text, MARKS) && ',' !in text
  {}

  lemma CellPlain(c: Cell)
    requires CellOk(c)
    ensures Plain(CellText(c))
  {
    DecimalBack(c.number);
    hide Decimal;
  }

  lemma {:induction false} JoinHasNoMarks(pieces: seq<string>)
    requires forall k :: 0 <= k < |pieces| ==> Plain(pieces[k])
    ensures NoneOf(Join(pieces), MARKS)
  {
    if pieces == [] {
    } else if |pieces| == 1 {
      PlainHasNoMarks(pieces[0]);
    } else {
      PlainHasNoMarks(pieces[0]);
      JoinHasNoMarks(pieces[1..]);
      NoneOfConcat(pieces[0], ",", MARKS);
      NoneOfConcat(pieces[0] + ",", Join(pieces[1..]), MARKS);
    }
  }

  lemma ListText(f: Field)
    requires FieldOk(f) && !f.name.TimeoutMs?
    ensures var pieces := CellTexts(f.cells);
            NoneOf(Join(pieces), MARKS) && ListOf(Join(pieces)) == Ok(FieldNumbers(f))
  {
    var pieces := CellTexts(f.cells);
    forall k | 0 <= k < |pieces|
      ensures Plain(pieces[k]) && ',' !in pieces[k]
      ensures IsInt8Numeral(Trimmed(pieces[k])) && NumeralValue(Trimmed(pieces[k])) == f.cells[k].number
    {
      var c := f.cells[k];
      CellPlain(c);
      PlainHasNoMarks(pieces[k]);
      DecimalBack(c.number);
      TrimPadded(c.before, Decimal(c.number), c.after);
      hide Decimal;
    }
    JoinHasNoMarks(pieces);
    assert IsInt8List(Join(pieces), pieces);
    PiecesOfList(Join(pieces), pieces);
    assert Int8Values(pieces) == FieldNumbers(f);
  }

  lemma BlankHasNoMarks(text: string)
    requires Blank(text)
    ensures NoneOf(text, MARKS)
  {}

  lemma TailHasNoQuote(f: Field)
    requires FieldOk(f)
    ensures NoneOf(FieldTail(f), {'"'}) && FieldTail(f) != "" && FieldTail(f)[0] != 'i' && FieldTail(f)[0] != 't'
  {
    BlankHasNoMarks(f.left);
    BlankHasNoMarks(f.right);
    var q := {'"'};
    NoneOfConcat(f.left, ":", q);
    NoneOfConcat(f.left + ":", f.right, q);
    var value := if f.name.TimeoutMs? then CellText(f.cells[0]) else "[" + Join(CellTexts(f.cells)) + "]";
    if f.name.TimeoutMs? {
      CellPlain(f.cells[0]);
      PlainHasNoMarks(value);
    } else {
      ListText(f);
      NoneOfConcat("[", Join(CellTexts(f.cells)), q);
      NoneOfConcat("[" + Join(CellTexts(f.cells)), "]", q);
    }
    NoneOfConcat(f.left + ":" + f.right, value, q);
    assert FieldTail(f)[0] == if f.left == "" then ':' else f.left[0];
  }

  lemma AbsentField(f: Field, m: Name, rest: string)
    requires FieldOk(f) && f.name != m
    ensures Absent(FieldText(f), Quoted(Label(m)), rest)
  {
    TailHasNoQuote(f);
    LabelShape(m);
    hide FieldTail, Label, Absent;
    AbsentLabel(f.name, m, FieldTail(f) + rest);
    AbsentQuoteFree(FieldTail(f), Quoted(Label(m)), rest);
    AbsentConcat(Quoted(Label(f.name)), FieldTail(f), Quoted(Label(m)), rest);
  }

  // ---------------------------------------------------------------- reading one field

  lemma ArrayShape(pre: string, mid: string, list: string, post: string)
    requires NoneOf(mid, {'['}) && NoneOf(list, {']'})
    ensures var body := pre + mid + "[" + list + "]" + post;
            var begin := |pre| + |mid|;
            var end := begin + 1 + |list|;
            && First(body, {'['}, |pre|) == begin < |body| && First(body, {']'}, begin) == end < |body|
            && body[begin + 1..end] == list
  {
    hide First;
    var body := pre + mid + "[" + list + "]" + post;
    assert body == pre + mid + ['['] + (list + "]" + post);
    FirstIn(pre, mid, '[', list + "]" + post, {'['});
    NoneOfConcat("[", list, {']'});
    assert body == (pre + mid) + ("[" + list) + [']'] + post;
    FirstIn(pre + mid, "[" + list, ']', post, {']'});
  }

  lemma IntShape(pre: string, mid: string, pad: string, number: string, after: string)
    requires NoneOf(mid, {':'}) && Blank(pad) && number != "" && NoneOf(number, TERMINATORS) && number[0] !in BLANKS
    requires after != "" && after[0] in TERMINATORS
    ensures var body := pre + mid + ":" + pad + number + after;
            var colon := |pre| + |mid|;
            var begin := colon + 1 + |pad|;
            var end := begin + |number|;
            && First(body, {':'}, |pre|) == colon < |body| && FirstNot(body, BLANKS, colon + 1) == begin < |body|
            && First(body, TERMINATORS, begin) == end <= |body|
            && body[begin..end] == number
  {
    hide First, FirstNot;
    var body := pre + mid + ":" + pad + number + after;
    assert body == pre + mid + [':'] + (pad + number + after);
    FirstIn(pre, mid, ':', pad + number + after, {':'});
    var p1 := pre + mid + ":";
    assert body == p1 + pad + [number[0]] + (number[1..] + after);
    FirstNotIn(p1, pad, number[0], number[1..] + after, BLANKS);
    assert body == (p1 + pad) + number + [after[0]] + after[1..];
    FirstIn(p1 + pad, number, after[0], after[1..], TERMINATORS);
  }

  lemma ArrayBody(pre: string, f: Field, post: string)
    requires FieldOk(f) && !f.name.TimeoutMs?
    ensures var key := Quoted(Label(f.name));
            pre + FieldText(f) + post
            == pre + (key + f.left + ":" + f.right) + "[" + Join(CellTexts(f.cells)) + "]" + post
  {
    hide Label, Join;
  }

  lemma IntBody(pre: string, f: Field, post: string)
    requires FieldOk(f) && f.name.TimeoutMs?
    ensures var key := Quoted(Label(f.name));
            var c := f.cells[0];
            pre + FieldText(f) + post
            == pre + (key + f.left) + ":" + (f.right + c.before) + Decimal(c.number) + (c.after + post)
  {
    hide Label, Decimal;
  }

  lemma KeyFound(pre: string, f: Field, post: string)
    requires FieldOk(f) && Absent(pre, Quoted(Label(f.name)), Quoted(Label(f.name)) + (FieldTail(f) + post))
    ensures Find(pre + FieldText(f) + post, Quoted(Label(f.name)), 0) == |pre|
    ensures FieldText(f) != ""
  {
    var key := Quoted(Label(f.name));
    hide Label, FieldTail, Absent;
    FindAfter(pre, key, FieldTail(f) + post);
    assert pre + FieldText(f) + post == pre + key + (FieldTail(f) + post);
  }

  lemma ArrayFacts(f: Field)
    requires FieldOk(f) && !f.name.TimeoutMs?
    ensures var list := Join(CellTexts(f.cells));
            && NoneOf(Quoted(Label(f.name)) + f.left + ":" + f.right, {'['}) && NoneOf(list, {']'})
            && ListOf(list) == Ok(FieldNumbers(f))
  {
    hide Label, Join, ListOf, CellTexts, FieldNumbers;
    ListText(f);
    LabelShape(f.name);
    BlankHasNoMarks(f.left);
    BlankHasNoMarks(f.right);
    MarkFree(Quoted(Label(f.name)), f.left, f.right);
    ListEnd(Join(CellTexts(f.cells)));
  }

  /** An array field is found behind its label, and its elements come back in order. */
  lemma ReadArray(pre: string, f: Field, post: string)
    requires FieldOk(f) && !f.name.TimeoutMs?
    requires Absent(pre, Quoted(Label(f.name)), Quoted(Label(f.name)) + (FieldTail(f) + post))
    ensures ArrayField(pre + FieldText(f) + post, Label(f.name)) == Ok(FieldNumbers(f))
  {
    hide Label, Quoted, Join, Absent, ListOf, NoneOf, FieldTail, FieldText, CellTexts, FieldNumbers, First, Find;
    ArrayFacts(f);
    KeyFound(pre, f, post);
    ArrayBody(pre, f, post);
    ArrayShape(pre, Quoted(Label(f.name)) + f.left + ":" + f.right, Join(CellTexts(f.cells)), post);
  }

  lemma MarkFree(key: string, left: string, right: string)
    requires NoneOf(key, {'[', ':'}) && NoneOf(left, MARKS) && NoneOf(right, MARKS)
    ensures NoneOf(key + left + ":" + right, {'['}) && NoneOf(key + left, {':'})
  {
    NoneOfConcat(key, left, {'['});
    NoneOfConcat(key + left, ":", {'['});
    NoneOfConcat(key + left + ":", right, {'['});
    NoneOfConcat(key, left, {':'});
  }

  lemma ListEnd(list: string)
    requires NoneOf(list, MARKS)
    ensures NoneOf(list, {']'})
  {}

  lemma IntFacts(f: Field)
    requires FieldOk(f) && f.name.TimeoutMs?
    ensures var cell := f.cells[0];
            var number := Decimal(cell.number);
            && NoneOf(Quoted(Label(f.name)) + f.left, {':'}) && Blank(f.right + cell.before)
            && number != "" && number[0] !in BLANKS && NoneOf(number, TERMINATORS)
            && FromChars(number) == Converted(cell.number, |number|)
  {
    hide Label, Decimal, FromChars, IsNumeral, NumeralValue;
    var number := Decimal(f.cells[0].number);
    LabelShape(f.name);
    BlankHasNoMarks(f.left);
    BlankHasNoMarks(f.right);
    MarkFree(Quoted(Label(f.name)), f.left, f.right);
    DecimalBack(f.cells[0].number);
    DecimalEnds(f.cells[0].number);
    FromCharsWhole(number);
  }

  /** The integer field is found behind its label, and read up to the next terminator. */
  lemma ReadInt(pre: string, f: Field, post: string)
    requires FieldOk(f) && f.name.TimeoutMs? && post != "" && post[0] in TERMINATORS
    requires Absent(pre, Quoted(Label(f.name)), Quoted(Label(f.name)) + (FieldTail(f) + post))
    ensures IntField(pre + FieldText(f) + post, Label(f.name)) == Ok(f.cells[0].number)
  {
    hide Label, Quoted, Decimal, Absent, FromChars, NoneOf, FieldTail, FieldText, First, FirstNot, Find;
    var cell := f.cells[0];
    IntFacts(f);
    TerminatedBy(cell.after, post);
    KeyFound(pre, f, post);
    IntBody(pre, f, post);
    IntShape(pre, Quoted(Label(f.name)) + f.left, f.right + cell.before, Decimal(cell.number), cell.after + post);
  }

  lemma TerminatedBy(after: string, post: string)
    requires Blank(after) && post != "" && post[0] in TERMINATORS
    ensures after + post != "" && (after + post)[0] in TERMINATORS
  {}

  lemma DecimalEnds(n: int)
    ensures NoneOf(Decimal(n), TERMINATORS)
  {
    DecimalBack(n);
    PlainHasNoMarks(Decimal(n));
    hide Decimal;
  }

  // ---------------------------------------------------------------- the round trip

  function IndexOf(fs: seq<Field>, n: Name): (k: nat)
    requires FieldsOk(fs)
    ensures k < 3 && fs[k].name == n
  {
    if fs[0].name == n then 0 else if fs[1].name == n then 1 else 2
  }

  /** The text before field `k`, and the text after it. */
  function Before(l: Layout, fs: seq<Field>, k: nat): string
    requires LayoutOk(l) && FieldsOk(fs) && k < 3
  {
    if k == 0 then Head(l) else Before(l, fs, k - 1) + FieldText(fs[k - 1]) + Separator(l, k - 1)
  }

  function After(l: Layout, fs: seq<Field>, k: nat): string
    requires LayoutOk(l) && FieldsOk(fs) && k < 3
    decreases 3 - k
  {
    if k == 2 then Close(l) else Separator(l, k) + FieldText(fs[k + 1]) + After(l, fs, k + 1)
  }

  lemma Around(l: Layout, fs: seq<Field>, k: nat)
    requires LayoutOk(l) && FieldsOk(fs) && k < 3
    ensures Document(l, fs) == Before(l, fs, k) + FieldText(fs[k]) + After(l, fs, k)
    ensures After(l, fs, k) != "" && After(l, fs, k)[0] in TERMINATORS
  {
    hide FieldText;
    var f0, f1, f2 := FieldText(fs[0]), FieldText(fs[1]), FieldText(fs[2]);
    var h, s0, s1, c := Head(l), Separator(l, 0), Separator(l, 1), Close(l);
    assert Document(l, fs) == h + f0 + s0 + f1 + s1 + f2 + c;
    assert After(l, fs, 2) == c && After(l, fs, 1) == s1 + f2 + c && After(l, fs, 0) == s0 + f1 + (s1 + f2 + c);
    assert Before(l, fs, 1) == h + f0 + s0 && Before(l, fs, 2) == (h + f0 + s0) + f1 + s1;
    assert h + f0 + s0 + f1 + s1 + f2 + c == h + f0 + (s0 + f1 + (s1 + f2 + c));
    assert h + f0 + s0 + f1 + s1 + f2 + c == (h + f0 + s0) + f1 + (s1 + f2 + c);
  }

  lemma GlueHasNoQuote(l: Layout, k: nat)
    requires LayoutOk(l)
    ensures NoneOf(Head(l), {'"'})
    ensures k < 2 ==> NoneOf(Separator(l, k), {'"'})
  {}

  /** The label of a field occurs nowhere before the field. */
  lemma {:induction false} LabelAbsentBefore(l: Layout, fs: seq<Field>, k: nat, m: Name, rest: string)
    requires LayoutOk(l) && FieldsOk(fs) && k < 3 && forall j :: 0 <= j < k ==> fs[j].name != m
    ensures Absent(Before(l, fs, k), Quoted(Label(m)), rest)
  {
    LabelShape(m);
    hide Label, FieldText, Absent, NoneOf;
    var key := Quoted(Label(m));
    GlueHasNoQuote(l, 0);
    if k == 0 {
      AbsentQuoteFree(Head(l), key, rest);
    } else {
      GlueHasNoQuote(l, k - 1);
      var f, sep := FieldText(fs[k - 1]), Separator(l, k - 1);
      AbsentQuoteFree(sep, key, rest);
      AbsentField(fs[k - 1], m, sep + rest);
      AbsentConcat(f, sep, key, rest);
      LabelAbsentBefore(l, fs, k - 1, m, f + sep + rest);
      AbsentConcat(Before(l, fs, k - 1), f + sep, key, rest);
      assert Before(l, fs, k) == Before(l, fs, k - 1) + (f + sep);
    }
  }

  /** Every document made of the three fields, in any order and with any blanks between the tokens, is
      read back to exactly the numbers it was made of. */
  lemma RoundTrip(l: Layout, fs: seq<Field>)
    requires LayoutOk(l) && FieldsOk(fs)
    ensures InputOf(Document(l, fs)) ==
            Ok(DotInput(FieldNumbers(fs[IndexOf(fs, InputA)]), FieldNumbers(fs[IndexOf(fs, InputB)]),
                        fs[IndexOf(fs, TimeoutMs)].cells[0].number))
  {
    FieldRead(l, fs, InputA);
    FieldRead(l, fs, InputB);
    FieldRead(l, fs, TimeoutMs);
    hide Document, ArrayField, IntField;
  }

  lemma FieldRead(l: Layout, fs: seq<Field>, n: Name)
    requires LayoutOk(l) && FieldsOk(fs)
    ensures !n.TimeoutMs? ==> ArrayField(Document(l, fs), Label(n)) == Ok(FieldNumbers(fs[IndexOf(fs, n)]))
    ensures n.TimeoutMs? ==> IntField(Document(l, fs), Label(n)) == Ok(fs[IndexOf(fs, n)].cells[0].number)
  {
    hide Document, FieldText, FieldTail, Label, Absent, ArrayField, IntField, Before, After;
    var k := IndexOf(fs, n);
    var f := fs[k];
    Around(l, fs, k);
    LabelAbsentBefore(l, fs, k, n, Quoted(Label(n)) + (FieldTail(f) + After(l, fs, k)));
    if n.TimeoutMs? {
      ReadInt(Before(l, fs, k), f, After(l, fs, k));
    } else {
      ReadArray(Before(l, fs, k), f, After(l, fs, k));
    }
  }

  // ---------------------------------------------------------------- a borrowed list

  /** What may stand where the first list belongs: anything without a quote or an opening bracket. */
  predicate Listless(opening: string) {
    opening != "" && opening[0] == ':' && NoneOf(opening, {'"'}) && NoneOf(opening, {'['})
  }

  /** A document whose first field holds no list. */
  function Misfit(opening: string, b: Field, t: Field): string
    requires FieldOk(b) && FieldOk(t)
  {
    "{" + Quoted("input_a") + opening + FieldText(b) + "," + FieldText(t) + "}"
  }

  lemma Labels()
    ensures Label(InputA) == "input_a" && Label(InputB) == "input_b" && Label(TimeoutMs) == "timeout_ms"
  {}

  lemma Associate(a: string, b: string, c: string)
    ensures a + (b + c) == a + b + c
  {}

  /** Neither of the other labels occurs before its field. */
  lemma MisfitAbsent(opening: string, m: Name, rest: string)
    requires !m.InputA? && Listless(opening)
    ensures Absent("{" + Quoted("input_a") + opening, Quoted(Label(m)), rest)
  {
    var key := Quoted(Label(m));
    var a := Quoted(Label(InputA));
    Labels();
    LabelShape(m);
    hide Label, Absent, Quoted;
    AbsentQuoteFree(opening, key, rest);
    assert (opening + rest)[0] == ':';
    AbsentLabel(InputA, m, opening + rest);
    AbsentConcat(a, opening, key, rest);
    AbsentQuoteFree("{", key, a + opening + rest);
    AbsentConcat("{", a + opening, key, rest);
    Associate("{", a, opening);
  }

  /** The text before the borrowed list, as the search for its bracket sees it. */
  function Between(opening: string, b: Field): string {
    Quoted("input_a") + opening + (Quoted(Label(b.name)) + b.left + ":" + b.right)
  }

  lemma BetweenIsListless(opening: string, b: Field)
    requires Listless(opening) && FieldOk(b) && !b.name.TimeoutMs?
    ensures NoneOf(Between(opening, b), {'['})
  {
    ArrayFacts(b);
    LabelShape(InputA);
    Labels();
    hide Label, Quoted, NoneOf, FieldOk;
    NoneOfConcat(Quoted("input_a"), opening, {'['});
    NoneOfConcat(Quoted("input_a") + opening, Quoted(Label(b.name)) + b.left + ":" + b.right, {'['});
    BracketOfMarks(Quoted("input_a"));
  }

  lemma BracketOfMarks(s: string)
    ensures NoneOf(s, {'[', ':'}) ==> NoneOf(s, {'['})
  {}

  lemma BorrowBody(opening: string, b: Field, post: string)
    requires FieldOk(b) && !b.name.TimeoutMs?
    ensures "{" + Quoted("input_a") + opening + FieldText(b) + post
         == "{" + Between(opening, b) + "[" + Join(CellTexts(b.cells)) + "]" + post
  {
    var x := Quoted(Label(b.name)) + b.left + ":" + b.right;
    ArrayBody("{" + Quoted("input_a") + opening, b, post);
    hide Label, Quoted, Join, CellTexts, FieldText, FieldOk;
    Associate("{", Quoted("input_a"), opening);
    Associate("{", Quoted("input_a") + opening, x);
  }

  lemma FirstLabel(rest: string)
    ensures Find("{" + Quoted("input_a") + rest, Quoted("input_a"), 0) == 1
  {
    LabelShape(InputA);
    Labels();
    hide Label, Quoted, Find;
    AbsentQuoteFree("{", Quoted("input_a"), Quoted("input_a") + rest);
    FindAfter("{", Quoted("input_a"), rest);
  }

  /** The first list behind the label is the next field's. */
  lemma BorrowsList(opening: string, b: Field, post: string)
    requires Listless(opening) && FieldOk(b) && !b.name.TimeoutMs?
    ensures ArrayField("{" + Quoted("input_a") + opening + FieldText(b) + post, "input_a") == Ok(FieldNumbers(b))
  {
    var body := "{" + Quoted("input_a") + opening + FieldText(b) + post;
    ArrayFacts(b);
    BetweenIsListless(opening, b);
    BorrowBody(opening, b, post);
    hide Label, Quoted, Join, ListOf, NoneOf, CellTexts, FieldNumbers, First, Find, Between, FieldText, FieldOk;
    hide ArrayField;
    Associate("{" + Quoted("input_a"), opening, FieldText(b));
    Associate("{" + Quoted("input_a"), opening + FieldText(b), post);
    FirstLabel(opening + FieldText(b) + post);
    ListBehind(body, "input_a", "{", Between(opening, b), Join(CellTexts(b.cells)), post);
  }

  lemma ListBehind(body: string, field: string, pre: string, mid: string, list: string, post: string)
    requires body == pre + mid + "[" + list + "]" + post && Find(body, Quoted(field), 0) == |pre|
    requires NoneOf(mid, {'['}) && NoneOf(list, {']'})
    ensures ArrayField(body, field) == ListOf(list)
  {
    hide Quoted, ListOf, NoneOf, First, Find;
    ArrayShape(pre, mid, list, post);
  }

  lemma LaterAbsent(pre: string, b: Field, rest: string)
    requires FieldOk(b) && b.name.InputB?
    requires Absent(pre, Quoted(Label(TimeoutMs)), FieldText(b) + "," + rest)
    ensures Absent(pre + (FieldText(b) + ","), Quoted(Label(TimeoutMs)), rest)
  {
    var key := Quoted(Label(TimeoutMs));
    LabelShape(TimeoutMs);
    hide Label, Quoted, FieldText, Absent;
    AbsentField(b, TimeoutMs, "," + rest);
    AbsentQuoteFree(",", key, rest);
    AbsentConcat(FieldText(b), ",", key, rest);
    AbsentConcat(pre, FieldText(b) + ",", key, rest);
  }

  lemma MisfitLists(opening: string, b: Field, post: string)
    requires Listless(opening) && FieldOk(b) && b.name.InputB?
    ensures var body := "{" + Quoted("input_a") + opening + FieldText(b) + post;
            ArrayField(body, "input_a") == Ok(FieldNumbers(b)) && ArrayField(body, "input_b") == Ok(FieldNumbers(b))
  {
    Labels();
    hide Label, Quoted, FieldText, FieldTail, Absent, ArrayField, FieldNumbers, Listless, FieldOk;
    BorrowsList(opening, b, post);
    MisfitAbsent(opening, InputB, Quoted(Label(InputB)) + (FieldTail(b) + post));
    ReadArray("{" + Quoted("input_a") + opening, b, post);
  }

  lemma MisfitTimeout(opening: string, b: Field, t: Field)
    requires Listless(opening) && FieldOk(b) && b.name.InputB? && FieldOk(t) && t.name.TimeoutMs?
    ensures IntField(Misfit(opening, b, t), "timeout_ms") == Ok(t.cells[0].number)
  {
    var pre := "{" + Quoted("input_a") + opening;
    var rest := Quoted(Label(TimeoutMs)) + (FieldTail(t) + "}");
    assert t.cells != [];
    Labels();
    hide Label, Quoted, FieldText, FieldTail, Absent, IntField, Listless, FieldOk;
    MisfitAbsent(opening, TimeoutMs, FieldText(b) + "," + rest);
    LaterAbsent(pre, b, rest);
    ReadInt(pre + (FieldText(b) + ","), t, "}");
    Associate(pre, FieldText(b), ",");
  }

  /** A document that holds no list in its first field is not refused: the list of the second is taken for
      both vectors. */
  lemma MisfitAccepted(opening: string, b: Field, t: Field)
    requires Listless(opening) && FieldOk(b) && b.name.InputB? && FieldOk(t) && t.name.TimeoutMs?
    ensures InputOf(Misfit(opening, b, t)) == Ok(DotInput(FieldNumbers(b), FieldNumbers(b), t.cells[0].number))
  {
    MisfitTimeout(opening, b, t);
    MisfitLists(opening, b, "," + FieldText(t) + "}");
    MisfitBody("{" + Quoted("input_a") + opening + FieldText(b), FieldText(t));
    assert t.cells[0].number > 0;
    hide Quoted, FieldText, ArrayField, IntField, FieldNumbers, Listless;
  }

  lemma MisfitBody(pre: string, last: string)
    ensures pre + "," + last + "}" == pre + ("," + last + "}")
  {}
}
