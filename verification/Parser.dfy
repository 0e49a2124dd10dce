/** The text parser of cpp-hal/src/vnpuctl.cpp: a scanner for lists of signed bytes and for the three
    fields of a run-dot document, a fragment of RFC 8259 (objects, section 4; arrays, section 5;
    numbers, section 6) with a narrower notion of white space.
 */
module Parser {
  import opened Lanes

  datatype Parsed<+T> = Ok(value: T) | Bad(error: ParseError)

  datatype ParseError =
    | InvalidList | ListRange | ListLength | MissingField | InvalidArray | InvalidInteger | LengthMismatch | NotPositive

  const BLANKS: set<char> := {' ', '\n', '\t'}
  const TERMINATORS: set<char> := {',', '}', '\n', '\t', ' '}

  // ---------------------------------------------------------------- searching

  /** The first position from `from` on holding one of `cs`, or the end of the text. */
  function First(text: string, cs: set<char>, from: nat): (i: nat)
    requires from <= |text|
    ensures from <= i <= |text|
    ensures forall j :: from <= j < i ==> text[j] !in cs
    ensures i < |text| ==> text[i] in cs
    decreases |text| - from
  {
    if from == |text| || text[from] in cs then from else First(text, cs, from + 1)
  }

  /** The first position from `from` on holding none of `cs`, or the end of the text. */
  function FirstNot(text: string, cs: set<char>, from: nat): (i: nat)
    requires from <= |text|
    ensures from <= i <= |text|
    ensures forall j :: from <= j < i ==> text[j] in cs
    ensures i < |text| ==> text[i] !in cs
    decreases |text| - from
  {
    if from == |text| || text[from] !in cs then from else FirstNot(text, cs, from + 1)
  }

  predicate OccursAt(text: string, key: string, i: nat) {
    i + |key| <= |text| && text[i..i + |key|] == key
  }

  /** The first occurrence of `key` from `from` on, or the end of the text. */
  function Find(text: string, key: string, from: nat): (i: nat)
    requires from <= |text|
    ensures from <= i <= |text|
    ensures forall j :: from <= j < i ==> !OccursAt(text, key, j)
    ensures i < |text| ==> OccursAt(text, key, i)
    decreases |text| - from
  {
    if from == |text| || OccursAt(text, key, from) then from else Find(text, key, from + 1)
  }

  // ---------------------------------------------------------------- trimming

  predicate Blank(text: string) {
    forall i :: 0 <= i < |text| ==> text[i] in BLANKS
  }

  function TrimFront(text: string): string {
    if text != "" && text[0] in BLANKS then TrimFront(text[1..]) else text
  }

  function TrimBack(text: string): string {
    if text != "" && text[|text| - 1] in BLANKS then TrimBack(text[..|text| - 1]) else text
  }

  function Trimmed(text: string): string {
    TrimBack(TrimFront(text))
  }

  method Trim(text: string) returns (view: string)
    ensures view == Trimmed(text)
  {
    view := text;
    while view != "" && (view[0] == ' ' || view[0] == '\n' || view[0] == '\t')
      invariant TrimFront(view) == TrimFront(text)
      decreases |view|
    {
      view := view[1..];
    }
    while view != "" && (view[|view| - 1] == ' ' || view[|view| - 1] == '\n' || view[|view| - 1] == '\t')
      invariant TrimBack(view) == Trimmed(text)
      decreases |view|
    {
      view := view[..|view| - 1];
    }
  }

  /** No blank at either end. */
  predicate Tight(text: string) {
    text != "" ==> text[0] !in BLANKS && text[|text| - 1] !in BLANKS
  }

  /** Trimming removes exactly the surrounding blanks. */
  lemma {:induction false} TrimPadded(before: string, core: string, after: string)
    requires Blank(before) && Blank(after) && Tight(core)
    ensures Trimmed(before + core + after) == core
    decreases |before| + |after|
  {
    var text := before + core + after;
    if before != "" {
      assert text[1..] == before[1..] + core + after;
      TrimPadded(before[1..], core, after);
    } else if core != "" {
      assert text == core + after;
      TrimAfter(core, after);
    } else {
      assert text == after;
      TrimBlank(after);
    }
  }

  lemma {:induction false} TrimAfter(core: string, after: string)
    requires Blank(after) && Tight(core) && core != ""
    ensures TrimFront(core + after) == core + after && TrimBack(core + after) == core
    decreases |after|
  {
    if after == "" {
      assert core + after == core;
    } else {
      assert (core + after)[..|core| + |after| - 1] == core + after[..|after| - 1];
      TrimAfter(core, after[..|after| - 1]);
    }
  }

  lemma {:induction false} TrimBlank(text: string)
    requires Blank(text)
    ensures TrimFront(text) == ""
  {
    if text != "" {
      TrimBlank(text[1..]);
    }
  }

  // ---------------------------------------------------------------- integers

  const DIGITS: set<char> := {'0', '1', '2', '3', '4', '5', '6', '7', '8', '9'}

  function DigitValue(c: char): nat
    requires c in DIGITS
  {
    c as nat - '0' as nat
  }

  predicate AllDigits(text: string) {
    forall i :: 0 <= i < |text| ==> text[i] in DIGITS
  }

  function DigitsValue(text: string): nat
    requires AllDigits(text)
  {
    if text == "" then 0 else 10 * DigitsValue(text[..|text| - 1]) + DigitValue(text[|text| - 1])
  }

  datatype Conversion = NoMatch | OutOfRange(end: nat) | Converted(number: int, end: nat)

  function Start(text: string): nat {
    if text != "" && text[0] == '-' then 1 else 0
  }

  /** `std::from_chars` into an int, base ten: an optional minus sign and as many digits as follow. */
  function FromChars(text: string): Conversion {
    var start := Start(text);
    var end := FirstNot(text, DIGITS, start);
    if end == start then NoMatch
    else
      var magnitude: int := DigitsValue(text[start..end]);
      var number := if start == 1 then -magnitude else magnitude;
      if -0x8000_0000 <= number < 0x8000_0000 then Converted(number, end) else OutOfRange(end)
  }

  /** A whole text that is a decimal numeral. */
  predicate IsNumeral(text: string) {
    Start(text) < |text| && AllDigits(text[Start(text)..])
  }

  function NumeralValue(text: string): int
    requires IsNumeral(text)
  {
    var magnitude: int := DigitsValue(text[Start(text)..]);
    if Start(text) == 1 then -magnitude else magnitude
  }

  /** The conversion consumes the whole text exactly on numerals that fit an int. */
  lemma FromCharsWhole(text: string)
    ensures FromChars(text).Converted? && FromChars(text).end == |text| <==>
            IsNumeral(text) && -0x8000_0000 <= NumeralValue(text) < 0x8000_0000
    ensures FromChars(text).Converted? && FromChars(text).end == |text| ==>
            FromChars(text).number == NumeralValue(text)
  {
    var start := Start(text);
    var end := FirstNot(text, DIGITS, start);
    if IsNumeral(text) {
      forall i | start <= i < |text|
        ensures text[i] in DIGITS
      {
        assert text[i] == text[start..][i - start];
      }
      assert end == |text|;
    }
    if end == |text| {
      assert text[start..end] == text[start..];
    }
  }

  // ---------------------------------------------------------------- lists

  predicate IsInt8Numeral(text: string) {
    IsNumeral(text) && -0x80 <= NumeralValue(text) < 0x80
  }

  /** One list element. */
  function Element(token: string): Parsed<int8> {
    var c := FromChars(token);
    if !c.Converted? || c.end != |token| then Bad(InvalidList)
    else if c.number < -0x80 || c.number > 0x7F then Bad(ListRange)
    else Ok(c.number)
  }

  lemma ElementOk(token: string)
    ensures Element(token).Ok? <==> IsInt8Numeral(token)
    ensures Element(token).Ok? ==> Element(token).value == NumeralValue(token)
  {
    FromCharsWhole(token);
  }

  /** The loop of `parse_int8_list`, from the remaining text and the elements found so far. */
  function Elements(text: string, out: seq<int8>): Parsed<seq<int8>>
    decreases |text|
  {
    if text == "" then Ok(out)
    else
      var comma := First(text, {','}, 0);
      match Element(Trimmed(text[..comma]))
      case Bad(e) => Bad(e)
      case Ok(v) => if comma == |text| then Ok(out + [v]) else Elements(text[comma + 1..], out + [v])
  }

  function ListOf(text: string): Parsed<seq<int8>> {
    match Elements(text, [])
    case Bad(e) => Bad(e)
    case Ok(out) => if |out| != 8 then Bad(ListLength) else Ok(out)
  }

  method ParseInt8List(text: string) returns (result: Parsed<seq<int8>>)
    ensures result == ListOf(text)
  {
    var view := text;
    var out: seq<int8> := [];
    while view != ""
      invariant Elements(view, out) == Elements(text, [])
      decreases |view|
    {
      var comma := First(view, {','}, 0);
      var token := Trim(view[..comma]);
      var conversion := FromChars(token);
      if !conversion.Converted? || conversion.end != |token| {
        return Bad(InvalidList);
      }
      if conversion.number < -128 || conversion.number > 127 {
        return Bad(ListRange);
      }
      out := out + [conversion.number];
      if comma == |view| {
        view := "";
        break;
      }
      view := view[comma + 1..];
    }
    if |out| != 8 {
      return Bad(ListLength);
    }
    return Ok(out);
  }

  /** The comma-separated pieces of a text; one comma at the very end adds no piece. */
  function Pieces(text: string): seq<string>
    decreases |text|
  {
    if text == "" then []
    else
      var comma := First(text, {','}, 0);
      [text[..comma]] + (if comma == |text| then [] else Pieces(text[comma + 1..]))
  }

  predicate AllInt8(pieces: seq<string>) {
    forall k :: 0 <= k < |pieces| ==> IsInt8Numeral(Trimmed(pieces[k]))
  }

  function Int8Values(pieces: seq<string>): seq<int8>
    requires AllInt8(pieces)
  {
    seq(|pieces|, k requires 0 <= k < |pieces| => NumeralValue(Trimmed(pieces[k])))
  }

  lemma {:induction false} ElementsArePieces(text: string, out: seq<int8>)
    ensures Elements(text, out).Ok? <==> AllInt8(Pieces(text))
    ensures Elements(text, out).Ok? ==> Elements(text, out).value == out + Int8Values(Pieces(text))
    decreases |text|
  {
    hide Element, IsNumeral, NumeralValue, Trimmed, AllInt8, Pieces, First;
    NoPieces();
    if text != "" {
      var comma := First(text, {','}, 0);
      var token := Trimmed(text[..comma]);
      ElementOk(token);
      PiecesUnfold(text);
      var rest := if comma == |text| then [] else Pieces(text[comma + 1..]);
      AllInt8Cons(text[..comma], rest);
      if Element(token).Ok? {
        if comma < |text| {
          ElementsArePieces(text[comma + 1..], out + [Element(token).value]);
        } else {
          NoPieces();
        }
        if AllInt8(rest) {
          ValuesCons(text[..comma], rest);
          Reassociate(out, Element(token).value, Int8Values(rest));
        }
      }
    }
  }

  lemma NoPieces()
    ensures Pieces("") == [] && AllInt8([]) && Int8Values([]) == []
    ensures forall out: seq<int8> :: out + Int8Values([]) == out
  {}

  lemma Reassociate(out: seq<int8>, v: int8, rest: seq<int8>)
    ensures out + [v] + rest == out + ([v] + rest)
  {}

  lemma PiecesUnfold(text: string)
    requires text != ""
    ensures var comma := First(text, {','}, 0);
            Pieces(text) == [text[..comma]] + (if comma == |text| then [] else Pieces(text[comma + 1..]))
  {
    hide First;
  }

  lemma ValuesCons(first: string, rest: seq<string>)
    requires AllInt8([first] + rest) && AllInt8(rest) && IsNumeral(Trimmed(first))
    ensures Int8Values([first] + rest) == [NumeralValue(Trimmed(first))] + Int8Values(rest)
  {
    hide IsNumeral, NumeralValue, Trimmed;
    forall k | 0 < k <= |rest|
      ensures ([first] + rest)[k] == rest[k - 1]
    {}
  }

  lemma AllInt8Cons(first: string, rest: seq<string>)
    ensures AllInt8([first] + rest) <==> IsInt8Numeral(Trimmed(first)) && AllInt8(rest)
  {
    assert ([first] + rest)[0] == first;
    assert forall k :: 0 <= k < |rest| ==> ([first] + rest)[k + 1] == rest[k];
    assert forall k :: 0 < k < |[first] + rest| ==> ([first] + rest)[k] == rest[k - 1];
  }

  /** The list parser accepts exactly eight pieces that trim to int8 numerals, and returns their values
      in order. */
  lemma ListAccepts(text: string)
    ensures ListOf(text).Ok? <==> |Pieces(text)| == 8 && AllInt8(Pieces(text))
    ensures ListOf(text).Ok? ==> ListOf(text).value == Int8Values(Pieces(text))
  {
    ElementsArePieces(text, []);
    if AllInt8(Pieces(text)) {
      assert [] + Int8Values(Pieces(text)) == Int8Values(Pieces(text));
    }
  }

  function Join(pieces: seq<string>): string {
    if pieces == [] then "" else if |pieces| == 1 then pieces[0] else pieces[0] + "," + Join(pieces[1..])
  }

  predicate CommaFree(pieces: seq<string>) {
    forall k :: 0 <= k < |pieces| ==> ',' !in pieces[k]
  }

  /** Every text is the joining of its pieces, give or take one comma at the very end, and no piece
      holds a comma. */
  lemma {:induction false} PiecesJoin(text: string)
    ensures CommaFree(Pieces(text))
    ensures text == Join(Pieces(text)) || text == Join(Pieces(text)) + ","
    decreases |text|
  {
    hide Pieces, First, Join;
    NoPieces();
    JoinNone();
    if text != "" {
      PiecesUnfold(text);
      var comma := First(text, {','}, 0);
      var first := text[..comma];
      JoinOne(first);
      if comma == |text| {
        assert first == text;
      } else {
        var rest := text[comma + 1..];
        assert text == first + "," + rest;
        PiecesJoin(rest);
        if rest != "" {
          PiecesNonempty(rest);
          JoinCons(first, Pieces(rest));
          Trailing(first, Join(Pieces(rest)));
        }
      }
    }
  }

  lemma JoinNone()
    ensures Join([]) == ""
  {}

  lemma JoinOne(first: string)
    ensures Join([first]) == first && [first] + [] == [first]
  {}

  lemma JoinCons(first: string, rest: seq<string>)
    requires rest != []
    ensures Join([first] + rest) == first + "," + Join(rest)
  {
    assert ([first] + rest)[1..] == rest;
  }

  lemma Trailing(first: string, rest: string)
    ensures first + "," + (rest + ",") == (first + "," + rest) + ","
  {}

  lemma PiecesNonempty(text: string)
    requires text != ""
    ensures Pieces(text) != []
  {}

  /** And joining comma-free pieces, the last one not empty, gives a text with just those pieces. */
  lemma {:induction false} JoinPieces(pieces: seq<string>)
    requires CommaFree(pieces) && pieces != [] && pieces[|pieces| - 1] != ""
    ensures Pieces(Join(pieces)) == pieces && Join(pieces) != ""
  {
    hide Pieces, First, Join;
    var text := Join(pieces);
    var first := pieces[0];
    var rest := pieces[1..];
    assert pieces == [first] + rest;
    if rest == [] {
      JoinOne(first);
    } else {
      JoinPieces(rest);
      JoinCons(first, rest);
    }
    PiecesUnfold(text);
    FirstEnd(text, {','}, |first|, 0);
    assert text[..|first|] == first;
    assert rest != [] ==> text[|first| + 1..] == Join(rest);
  }

  /** A comma after the last piece changes nothing. */
  lemma {:induction false} JoinPiecesComma(pieces: seq<string>)
    requires CommaFree(pieces) && pieces != []
    ensures Pieces(Join(pieces) + ",") == pieces
  {
    hide Pieces, First, Join;
    var text := Join(pieces) + ",";
    var first := pieces[0];
    var rest := pieces[1..];
    assert pieces == [first] + rest;
    NoPieces();
    PiecesUnfold(text);
    if rest == [] {
      JoinOne(first);
    } else {
      JoinCons(first, rest);
      Trailing(first, Join(rest));
      JoinPiecesComma(rest);
    }
    FirstEnd(text, {','}, |first|, 0);
    assert text[..|first|] == first;
    assert text[|first| + 1..] == if rest == [] then "" else Join(rest) + ",";
  }

  ghost predicate IsInt8List(text: string, pieces: seq<string>) {
    && |pieces| == 8 && CommaFree(pieces) && AllInt8(pieces)
    && (text == Join(pieces) || text == Join(pieces) + ",")
  }

  /** The list grammar: a text parses if and only if it is eight comma-separated pieces, each an int8
      numeral between blanks, with at most one comma after the last. */
  lemma ListGrammar(text: string)
    ensures ListOf(text).Ok? <==> exists pieces :: IsInt8List(text, pieces)
  {
    ListAccepts(text);
    if ListOf(text).Ok? {
      PiecesJoin(text);
      assert IsInt8List(text, Pieces(text));
    }
    if pieces :| IsInt8List(text, pieces) {
      PiecesOfList(text, pieces);
    }
  }

  /** The pieces of such a text are the ones it was made of, so the values come out in their order. */
  lemma PiecesOfList(text: string, pieces: seq<string>)
    requires IsInt8List(text, pieces)
    ensures Pieces(text) == pieces
    ensures ListOf(text) == Ok(Int8Values(pieces))
  {
    NumeralNotBlank(pieces[7]);
    JoinPieces(pieces);
    JoinPiecesComma(pieces);
    ListAccepts(text);
  }

  lemma NumeralNotBlank(piece: string)
    requires IsInt8Numeral(Trimmed(piece))
    ensures piece != ""
  {}

  /** Where the first match is, once it is known what stands before and at it. */
  lemma FirstEnd(text: string, cs: set<char>, i: nat, from: nat)
    requires from <= i <= |text|
    requires forall j :: from <= j < i ==> text[j] !in cs
    requires i < |text| ==> text[i] in cs
    ensures First(text, cs, from) == i
  {}

  // ---------------------------------------------------------------- fields

  function Quoted(field: string): string {
    "\"" + field + "\""
  }

  function ArrayField(body: string, field: string): Parsed<seq<int8>> {
    var keyPos := Find(body, Quoted(field), 0);
    if keyPos == |body| then Bad(MissingField)
    else
      var begin := First(body, {'['}, keyPos);
      var end := First(body, {']'}, begin);
      if begin == |body| || end == |body| || end <= begin then Bad(InvalidArray)
      else ListOf(body[begin + 1..end])
  }

  method ParseJsonInt8Array(body: string, field: string) returns (result: Parsed<seq<int8>>)
    ensures result == ArrayField(body, field)
  {
    hide Find, First, ListOf;
    var key := "\"" + field + "\"";
    var keyPos := Find(body, key, 0);
    if keyPos == |body| {
      return Bad(MissingField);
    }
    var begin := First(body, {'['}, keyPos);
    var end := First(body, {']'}, begin);
    if begin == |body| || end == |body| || end <= begin {
      return Bad(InvalidArray);
    }
    result := ParseInt8List(body[begin + 1..end]);
  }

  function IntField(body: string, field: string): Parsed<int> {
    var keyPos := Find(body, Quoted(field), 0);
    if keyPos == |body| then Bad(MissingField)
    else
      var colon := First(body, {':'}, keyPos);
      if colon == |body| then Bad(InvalidInteger)
      else
        var begin := FirstNot(body, BLANKS, colon + 1);
        var end := First(body, TERMINATORS, begin);
        if begin == |body| then Bad(InvalidInteger)
        else
          var c := FromChars(body[begin..end]);
          if !c.Converted? || c.end != end - begin then Bad(InvalidInteger) else Ok(c.number)
  }

  method ParseJsonInt(body: string, field: string) returns (result: Parsed<int>)
    ensures result == IntField(body, field)
  {
    hide Find, First, FirstNot, FromChars;
    var key := "\"" + field + "\"";
    var keyPos := Find(body, key, 0);
    if keyPos == |body| {
      return Bad(MissingField);
    }
    var colon := First(body, {':'}, keyPos);
    if colon == |body| {
      return Bad(InvalidInteger);
    }
    var begin := FirstNot(body, BLANKS, colon + 1);
    var end := First(body, TERMINATORS, begin);
    if begin == |body| {
      return Bad(InvalidInteger);
    }
    var conversion := FromChars(body[begin..end]);
    if !conversion.Converted? || conversion.end != end - begin {
      return Bad(InvalidInteger);
    }
    return Ok(conversion.number);
  }

  datatype DotInput = DotInput(inputA: seq<int8>, inputB: seq<int8>, timeout: int)

  function InputOf(body: string): Parsed<DotInput> {
    match ArrayField(body, "input_a")
    case Bad(e) => Bad(e)
    case Ok(a) =>
      match ArrayField(body, "input_b")
      case Bad(e) => Bad(e)
      case Ok(b) =>
        if |a| != |b| then Bad(LengthMismatch)
        else
          match IntField(body, "timeout_ms")
          case Bad(e) => Bad(e)
          case Ok(t) => if t <= 0 then Bad(NotPositive) else Ok(DotInput(a, b, t))
  }

  /** The document part of `parse_run_dot_input_json`. */
  method ParseRunDotInput(body: string) returns (result: Parsed<DotInput>)
    ensures result == InputOf(body)
  {
    var a := ParseJsonInt8Array(body, "input_a");
    if a.Bad? {
      return Bad(a.error);
    }
    var b := ParseJsonInt8Array(body, "input_b");
    if b.Bad? {
      return Bad(b.error);
    }
    if |a.value| != |b.value| {
      return Bad(LengthMismatch);
    }
    var timeout := ParseJsonInt(body, "timeout_ms");
    if timeout.Bad? {
      return Bad(timeout.error);
    }
    if timeout.value <= 0 {
      return Bad(NotPositive);
    }
    return Ok(DotInput(a.value, b.value, timeout.value));
  }

  lemma {:induction false} ElementErrors(text: string, out: seq<int8>)
    ensures Elements(text, out).Bad? ==> Elements(text, out).error in {InvalidList, ListRange}
    decreases |text|
  {
    hide First, Trimmed, FromChars;
    if text != "" {
      var comma := First(text, {','}, 0);
      var element := Element(Trimmed(text[..comma]));
      if element.Ok? && comma < |text| {
        ElementErrors(text[comma + 1..], out + [element.value]);
      }
    }
  }

  /** Vectors that parse have eight elements each; nothing below the document complains of two lengths. */
  lemma ArrayLength(body: string, field: string)
    ensures ArrayField(body, field).Ok? ==> |ArrayField(body, field).value| == 8
    ensures ArrayField(body, field) != Bad(LengthMismatch)
  {
    hide Find, First, Elements;
    forall text: string
      ensures ListOf(text) != Bad(LengthMismatch)
    {
      ElementErrors(text, []);
    }
  }

  /** So the comparison of the two lengths never fails. */
  lemma MismatchImpossible(body: string)
    ensures InputOf(body) != Bad(LengthMismatch)
  {
    hide ArrayField, IntField;
    ArrayLength(body, "input_a");
    ArrayLength(body, "input_b");
    IntErrorIff(body, "timeout_ms");
  }

  // ---------------------------------------------------------------- what is read from any text

  /** `i` is the first position from `from` on where `key` occurs. */
  predicate FirstKey(body: string, key: string, from: nat, i: nat) {
    from <= i && OccursAt(body, key, i) && forall j :: from <= j < i ==> !OccursAt(body, key, j)
  }

  /** `i` is the first position from `from` on that holds one of `cs`. */
  predicate FirstChar(body: string, cs: set<char>, from: nat, i: nat) {
    from <= i < |body| && body[i] in cs && forall j :: from <= j < i ==> body[j] !in cs
  }

  lemma FirstKeyFound(body: string, key: string, from: nat)
    requires from <= |body| && key != ""
    ensures forall i :: FirstKey(body, key, from, i) <==> i == Find(body, key, from) < |body|
  {}

  lemma FirstCharFound(body: string, cs: set<char>, from: nat)
    requires from <= |body|
    ensures forall i :: FirstChar(body, cs, from, i) <==> i == First(body, cs, from) < |body|
  {}

  /** Where the quoted name first occurs, the first opening bracket from there on, the first closing one
      from there on. */
  predicate Brackets(body: string, field: string, key: nat, open: nat, close: nat) {
    && FirstKey(body, Quoted(field), 0, key) && FirstChar(body, {'['}, key, open) && FirstChar(body, {']'}, open, close)
    && open < close
  }

  lemma BracketsFound(body: string, field: string, key: nat, open: nat, close: nat)
    ensures Brackets(body, field, key, open, close) <==>
            && key == Find(body, Quoted(field), 0) < |body|
            && open == First(body, {'['}, key) < |body|
            && close == First(body, {']'}, open) < |body|
  {
    hide Find, First;
    FirstKeyFound(body, Quoted(field), 0);
    if key == Find(body, Quoted(field), 0) < |body| {
      FirstCharFound(body, {'['}, key);
      if open == First(body, {'['}, key) < |body| {
        FirstCharFound(body, {']'}, open);
      }
    }
  }

  /** Between those brackets stands an int8 list. */
  ghost predicate ListAt(body: string, field: string, pieces: seq<string>) {
    exists key: nat, open: nat, close: nat ::
      Brackets(body, field, key, open, close) && IsInt8List(body[open + 1..close], pieces)
  }

  /** Whatever the text, an array field reads the values `v` if and only if they are those of the list
      behind the first occurrence of its name, even when that list belongs to another field. */
  lemma ArrayFieldIff(body: string, field: string, v: seq<int8>)
    ensures ArrayField(body, field) == Ok(v) <==>
            exists pieces :: ListAt(body, field, pieces) && AllInt8(pieces) && v == Int8Values(pieces)
  {
    hide Find, First, ListOf, Brackets, CommaFree, AllInt8, Int8Values;
    forall key: nat, open: nat, close: nat
      ensures Brackets(body, field, key, open, close) <==>
              && key == Find(body, Quoted(field), 0) < |body|
              && open == First(body, {'['}, key) < |body|
              && close == First(body, {']'}, open) < |body|
    {
      BracketsFound(body, field, key, open, close);
    }
    var key := Find(body, Quoted(field), 0);
    var open := First(body, {'['}, key);
    var close := First(body, {']'}, open);
    if Brackets(body, field, key, open, close) {
      BracketsOrdered(body, field, key, open, close);
      ListIff(body[open + 1..close], v);
    }
  }

  lemma BracketsOrdered(body: string, field: string, key: nat, open: nat, close: nat)
    requires Brackets(body, field, key, open, close)
    ensures open < close < |body|
  {}

  lemma ListIff(text: string, v: seq<int8>)
    ensures ListOf(text) == Ok(v) <==>
            exists pieces :: IsInt8List(text, pieces) && AllInt8(pieces) && v == Int8Values(pieces)
  {
    ListGrammar(text);
    hide ListOf, Int8Values, IsInt8List, AllInt8;
    forall pieces | IsInt8List(text, pieces)
      ensures AllInt8(pieces) && ListOf(text) == Ok(Int8Values(pieces))
    {
      ListPieces(text, pieces);
    }
  }

  lemma ListPieces(text: string, pieces: seq<string>)
    requires IsInt8List(text, pieces)
    ensures AllInt8(pieces) && ListOf(text) == Ok(Int8Values(pieces))
  {
    PiecesOfList(text, pieces);
  }

  /** A numeral that fits an int. */
  predicate IsIntNumeral(text: string) {
    IsNumeral(text) && -0x8000_0000 <= NumeralValue(text) < 0x8000_0000
  }

  /** A stretch without terminators behind nothing but blanks, up to a terminator or the end. */
  predicate StretchAt(body: string, colon: nat, begin: nat, end: nat) {
    && colon < begin < end <= |body| && Blank(body[colon + 1..begin]) && NoTerminator(body[begin..end])
    && (end == |body| || body[end] in TERMINATORS)
  }

  predicate NoTerminator(text: string) {
    forall i :: 0 <= i < |text| ==> text[i] !in TERMINATORS
  }

  lemma StretchFound(body: string, colon: nat)
    requires colon < |body|
    ensures var begin := FirstNot(body, BLANKS, colon + 1);
            var end := First(body, TERMINATORS, begin);
            forall b: nat, e: nat :: StretchAt(body, colon, b, e) <==> b == begin < end && e == end
  {
    var begin := FirstNot(body, BLANKS, colon + 1);
    var end := First(body, TERMINATORS, begin);
    hide First, FirstNot;
    if begin < end {
      assert StretchAt(body, colon, begin, end);
    }
    forall b: nat, e: nat | StretchAt(body, colon, b, e)
      ensures b == begin && e == end && begin < end
    {
      StretchUnique(body, colon, b, e);
    }
  }

  lemma StretchUnique(body: string, colon: nat, b: nat, e: nat)
    requires colon < |body| && StretchAt(body, colon, b, e)
    ensures b == FirstNot(body, BLANKS, colon + 1) && e == First(body, TERMINATORS, b)
  {
    hide First, FirstNot;
    assert forall j :: colon + 1 <= j < b ==> body[j] == body[colon + 1..b][j - (colon + 1)];
    assert forall j :: b <= j < e ==> body[j] == body[b..e][j - b];
    assert body[b] == body[b..e][0];
    FirstEnd(body, TERMINATORS, e, b);
  }

  /** The stretch after the first colon at or after the first occurrence of the quoted name. */
  ghost predicate ValueAt(body: string, field: string, text: string) {
    exists key: nat, colon: nat, begin: nat, end: nat ::
      && FirstKey(body, Quoted(field), 0, key) && FirstChar(body, {':'}, key, colon)
      && StretchAt(body, colon, begin, end) && text == body[begin..end]
  }

  /** Whatever the text, the integer field reads `n` if and only if that stretch is a numeral for it that
      fits an int. */
  lemma IntFieldIff(body: string, field: string, n: int)
    ensures IntField(body, field) == Ok(n) <==>
            exists text :: ValueAt(body, field, text) && IsIntNumeral(text) && n == NumeralValue(text)
  {
    hide Find, First, FirstNot, FromChars, IsNumeral, NumeralValue, StretchAt;
    var key := Find(body, Quoted(field), 0);
    FirstKeyFound(body, Quoted(field), 0);
    if key < |body| {
      FirstCharFound(body, {':'}, key);
      var colon := First(body, {':'}, key);
      if colon < |body| {
        StretchFound(body, colon);
        var begin := FirstNot(body, BLANKS, colon + 1);
        var end := First(body, TERMINATORS, begin);
        FromCharsWhole(body[begin..end]);
        EmptyNumeral();
        assert FirstKey(body, Quoted(field), 0, key) && FirstChar(body, {':'}, key, colon);
        hide FirstKey, FirstChar;
        if begin < end {
          assert StretchAt(body, colon, begin, end);
          assert ValueAt(body, field, body[begin..end]);
        }
      }
    }
  }

  lemma EmptyNumeral()
    ensures !IsNumeral("")
  {}

  /** Whatever the text, a document is read if and only if its three fields are and the timeout is
      positive; what is read is what the fields hold. */
  lemma InputIff(body: string, input: DotInput)
    ensures InputOf(body) == Ok(input) <==>
            && ArrayField(body, "input_a") == Ok(input.inputA) && ArrayField(body, "input_b") == Ok(input.inputB)
            && IntField(body, "timeout_ms") == Ok(input.timeout) && input.timeout > 0
  {
    ArrayLength(body, "input_a");
    ArrayLength(body, "input_b");
    hide ArrayField, IntField;
  }

  // ---------------------------------------------------------------- characters

  /** What a numeral is: at most one minus sign and then nothing but the digits 0 to 9, at least one. */
  lemma NumeralIff(text: string)
    ensures IsNumeral(text) <==>
            exists sign, digits ::
              && text == sign + digits && (sign == "" || sign == "-") && digits != ""
              && forall i :: 0 <= i < |digits| ==> '0' <= digits[i] <= '9'
  {
    DigitRange();
    if IsNumeral(text) {
      var sign, digits := text[..Start(text)], text[Start(text)..];
      assert text == sign + digits && (sign == "" || sign == "-");
    }
    forall sign, digits: string | text == sign + digits && (sign == "" || sign == "-") && digits != ""
                                  && forall i :: 0 <= i < |digits| ==> '0' <= digits[i] <= '9'
      ensures IsNumeral(text)
    {
      assert text[|sign|] == digits[0];
      assert Start(text) == |sign| && text[|sign|..] == digits;
    }
  }

  lemma DigitRange()
    ensures forall c: char :: c in DIGITS <==> '0' <= c <= '9'
  {}

  /** The value of a numeral: each further digit multiplies by ten and adds. */
  lemma NumeralStep(text: string, c: char)
    requires IsNumeral(text) && '0' <= c <= '9'
    ensures IsNumeral(text + [c])
    ensures var digit := c as int - 48;
            NumeralValue(text + [c]) ==
            if text[0] == '-' then 10 * NumeralValue(text) - digit else 10 * NumeralValue(text) + digit
  {
    DigitRange();
    var longer := text + [c];
    var start := Start(text);
    assert Start(longer) == start && longer[start..] == text[start..] + [c];
    assert longer[start..][..|text| - start] == text[start..];
  }

  lemma NumeralOne(c: char)
    requires '0' <= c <= '9'
    ensures IsNumeral([c]) && NumeralValue([c]) == c as int - 48
    ensures IsNumeral(['-', c]) && NumeralValue(['-', c]) == 48 - c as int
  {
    DigitRange();
    assert [c][0..] == [c] && [c][..0] == "";
    assert DigitsValue([c]) == DigitValue(c);
    assert ['-', c][1..] == [c];
  }

  /** A character in front of an element is passed over exactly if it is a space, a newline or a tab: a
      carriage return, for one, makes the list invalid. */
  lemma LeadingCharacter(c: char, text: string)
    requires IsNumeral(text) && !('0' <= c <= '9') && c != '-'
    ensures IsNumeral(Trimmed([c] + text)) <==> c == ' ' || c == '\n' || c == '\t'
    ensures c == ' ' || c == '\n' || c == '\t' ==> Trimmed([c] + text) == text
  {
    DigitRange();
    NumeralIsTight(text);
    if c in BLANKS {
      assert [c] + text + "" == [c] + text;
      TrimPadded([c], text, "");
    } else {
      assert Tight([c] + text);
      assert "" + ([c] + text) + "" == [c] + text;
      TrimPadded("", [c] + text, "");
    }
  }

  /** And one behind it. */
  lemma TrailingCharacter(c: char, text: string)
    requires IsNumeral(text) && !('0' <= c <= '9')
    ensures IsNumeral(Trimmed(text + [c])) <==> c == ' ' || c == '\n' || c == '\t'
    ensures c == ' ' || c == '\n' || c == '\t' ==> Trimmed(text + [c]) == text
  {
    DigitRange();
    NumeralIsTight(text);
    if c in BLANKS {
      assert "" + text + [c] == text + [c];
      TrimPadded("", text, [c]);
    } else {
      assert Tight(text + [c]);
      assert "" + (text + [c]) + "" == text + [c];
      TrimPadded("", text + [c], "");
      var longer := text + [c];
      assert longer[Start(longer)..][|text| - Start(longer)] == c;
    }
  }

  lemma NumeralIsTight(text: string)
    requires IsNumeral(text)
    ensures Tight(text) && text != ""
  {
    assert text[Start(text)..][0] in DIGITS && text[Start(text)..][|text| - Start(text) - 1] in DIGITS;
  }

  lemma PlainNumber(number: string)
    requires IsNumeral(number)
    ensures NoTerminator(number) && number[0] !in BLANKS
  {
    forall i | 0 <= i < |number|
      ensures number[i] in DIGITS || number[i] == '-'
    {
      assert i >= Start(number) ==> number[i] == number[Start(number)..][i - Start(number)];
    }
  }

  lemma ExtendedNotNumeral(number: string, c: char, tail: string)
    requires IsNumeral(number)
    ensures c !in DIGITS ==> !IsNumeral(number + [c] + tail)
  {
    var text := number + [c] + tail;
    assert text[Start(text)..][|number| - Start(text)] == c;
  }

  /** Where the search stands in a text that begins with a quoted name, a colon and a number. */
  lemma FieldStart(field: string, number: string, after: string)
    requires ':' !in field && IsNumeral(number)
    ensures var key := "\"" + field + "\"";
            var body := key + ":" + number + after;
            && Find(body, Quoted(field), 0) == 0 && First(body, {':'}, 0) == |key|
            && FirstNot(body, BLANKS, |key| + 1) == |key| + 1 && body[|key| + 1..] == number + after
  {
    var key := "\"" + field + "\"";
    var body := key + ":" + number + after;
    PlainNumber(number);
    assert body[0..|key|] == key;
    assert OccursAt(body, key, 0);
    FirstEnd(body, {':'}, |key|, 0);
    assert body[|key| + 1] == number[0];
  }

  /** The stretch a number begins ends with it, or goes on with the character behind it. */
  lemma StretchEnd(body: string, begin: nat, number: string, c: char, rest: string) returns (tail: string)
    requires begin <= |body| && body[begin..] == number + ([c] + rest) && NoTerminator(number)
    ensures var stretch := body[begin..First(body, TERMINATORS, begin)];
            stretch == if c in TERMINATORS then number else number + [c] + tail
  {
    hide First;
    forall j | begin <= j < begin + |number|
      ensures body[j] == number[j - begin]
    {
      assert body[j] == body[begin..][j - begin];
    }
    assert body[begin + |number|] == body[begin..][|number|] == c;
    var end := First(body, TERMINATORS, begin);
    if c in TERMINATORS {
      FirstEnd(body, TERMINATORS, begin + |number|, begin);
      tail := "";
    } else {
      tail := body[begin + |number| + 1..end];
    }
  }

  /** An integer value ends at a comma, a closing brace, a newline, a tab or a space, and at nothing else. */
  lemma Terminated(field: string, number: string, c: char, rest: string)
    requires ':' !in field && IsIntNumeral(number) && !('0' <= c <= '9')
    ensures var body := "\"" + field + "\"" + ":" + number + ([c] + rest);
            IntField(body, field) == Ok(NumeralValue(number)) <==>
            c == ',' || c == '}' || c == '\n' || c == '\t' || c == ' '
  {
    hide Find, First, FirstNot, FromChars, IsNumeral, NumeralValue, NoTerminator;
    DigitRange();
    PlainNumber(number);
    var key := "\"" + field + "\"";
    var body := key + ":" + number + ([c] + rest);
    FieldStart(field, number, [c] + rest);
    var begin := |key| + 1;
    var tail := StretchEnd(body, begin, number, c, rest);
    FromCharsWhole(body[begin..First(body, TERMINATORS, begin)]);
    ExtendedNotNumeral(number, c, tail);
  }

  // ---------------------------------------------------------------- which error is reported

  /** The first piece that is no element: not a numeral that fits an int, or one that fits no byte. */
  predicate FirstFault(pieces: seq<string>, k: nat) {
    k < |pieces| && AllInt8(pieces[..k]) && !IsInt8Numeral(Trimmed(pieces[k]))
  }

  predicate NoNumeralAt(pieces: seq<string>, k: nat) {
    FirstFault(pieces, k) && !IsIntNumeral(Trimmed(pieces[k]))
  }

  predicate OutOfByteAt(pieces: seq<string>, k: nat) {
    FirstFault(pieces, k) && IsIntNumeral(Trimmed(pieces[k]))
  }

  lemma ElementFaults(token: string)
    ensures Element(token) == Bad(InvalidList) <==> !IsIntNumeral(token)
    ensures Element(token) == Bad(ListRange) <==> IsIntNumeral(token) && !IsInt8Numeral(token)
  {
    FromCharsWhole(token);
    hide FromChars, IsNumeral, NumeralValue;
  }

  /** The position of the first faulty piece, given there is one. */
  lemma {:induction false} ElementsFault(text: string, out: seq<int8>) returns (k: nat)
    requires Elements(text, out).Bad?
    ensures FirstFault(Pieces(text), k)
    ensures Elements(text, out) == Bad(if IsIntNumeral(Trimmed(Pieces(text)[k])) then ListRange else InvalidList)
    decreases |text|
  {
    hide Element, Trimmed, Pieces, First, IsIntNumeral, IsInt8Numeral;
    PiecesUnfold(text);
    var comma := First(text, {','}, 0);
    var token := Trimmed(text[..comma]);
    ElementFaults(token);
    ElementOk(token);
    if Element(token).Bad? {
      k := 0;
      assert Pieces(text)[..0] == [];
    } else {
      var rest := text[comma + 1..];
      k := ElementsFault(rest, out + [Element(token).value]);
      assert Pieces(text)[..k + 1] == [text[..comma]] + Pieces(rest)[..k];
      AllInt8Cons(text[..comma], Pieces(rest)[..k]);
      assert Pieces(text)[k + 1] == Pieces(rest)[k];
      k := k + 1;
    }
  }

  lemma BeforeFault(pieces: seq<string>, j: nat, k: nat)
    requires FirstFault(pieces, k) && j < k
    ensures IsInt8Numeral(Trimmed(pieces[j]))
  {
    assert pieces[..k][j] == pieces[j];
  }

  lemma FaultUnique(pieces: seq<string>, j: nat, k: nat)
    requires FirstFault(pieces, j) && FirstFault(pieces, k)
    ensures j == k
  {
    if j < k {
      BeforeFault(pieces, j, k);
    } else if k < j {
      BeforeFault(pieces, k, j);
    }
  }

  /** Which error a list reports: the first faulty piece decides, and only a list without one is measured. */
  lemma ListErrorIff(text: string)
    ensures ListOf(text) == Bad(InvalidList) <==> exists k :: NoNumeralAt(Pieces(text), k)
    ensures ListOf(text) == Bad(ListRange) <==> exists k :: OutOfByteAt(Pieces(text), k)
    ensures ListOf(text) == Bad(ListLength) <==> AllInt8(Pieces(text)) && |Pieces(text)| != 8
  {
    ElementsArePieces(text, []);
    hide Pieces, Trimmed, IsIntNumeral, IsInt8Numeral;
    var pieces := Pieces(text);
    if AllInt8(pieces) {
      ListAccepts(text);
      assert forall k :: 0 <= k < |pieces| ==> IsInt8Numeral(Trimmed(pieces[k]));
    } else {
      var k := ElementsFault(text, []);
      forall j | FirstFault(pieces, j)
        ensures j == k
      {
        FaultUnique(pieces, j, k);
      }
      assert if IsIntNumeral(Trimmed(pieces[k])) then OutOfByteAt(pieces, k) else NoNumeralAt(pieces, k);
    }
  }

  predicate Named(body: string, field: string) {
    exists i :: 0 <= i < |body| && OccursAt(body, "\"" + field + "\"", i)
  }

  /** Which error a field reports: a missing name, then missing brackets, then what is wrong with the list. */
  lemma ArrayErrorIff(body: string, field: string)
    ensures ArrayField(body, field) == Bad(MissingField) <==> !Named(body, field)
    ensures ArrayField(body, field) == Bad(InvalidArray) <==>
            Named(body, field) && !exists key: nat, open: nat, close: nat :: Brackets(body, field, key, open, close)
  {
    FirstKeyFound(body, Quoted(field), 0);
    forall key: nat, open: nat, close: nat
      ensures Brackets(body, field, key, open, close) <==>
              && key == Find(body, Quoted(field), 0) < |body|
              && open == First(body, {'['}, key) < |body|
              && close == First(body, {']'}, open) < |body|
    {
      BracketsFound(body, field, key, open, close);
    }
    var key := Find(body, Quoted(field), 0);
    var open := First(body, {'['}, key);
    var close := First(body, {']'}, open);
    if key < |body| && open < |body| && close < |body| {
      assert Brackets(body, field, key, open, close);
      BracketsOrdered(body, field, key, open, close);
      ListErrorKinds(body[open + 1..close]);
    }
    hide ListOf, Brackets, First;
  }

  lemma ListErrorKinds(text: string)
    ensures ListOf(text).Bad? ==> ListOf(text).error in {InvalidList, ListRange, ListLength}
  {
    ElementErrors(text, []);
  }

  lemma IntErrorIff(body: string, field: string)
    ensures IntField(body, field) == Bad(MissingField) <==> !Named(body, field)
    ensures IntField(body, field).Bad? && Named(body, field) ==> IntField(body, field) == Bad(InvalidInteger)
  {
    hide First, FirstNot, FromChars;
  }

  /** Which error a document reports: the fields are read in order, and the first that fails decides. */
  lemma InputErrorIff(body: string, e: ParseError)
    ensures InputOf(body) == Bad(e) <==>
            var a, b, t := ArrayField(body, "input_a"), ArrayField(body, "input_b"), IntField(body, "timeout_ms");
            || a == Bad(e)
            || (a.Ok? && b == Bad(e))
            || (a.Ok? && b.Ok? && t == Bad(e))
            || (a.Ok? && b.Ok? && t.Ok? && t.value <= 0 && e == NotPositive)
  {
    ArrayLength(body, "input_a");
    ArrayLength(body, "input_b");
    hide ArrayField, IntField;
  }
}
