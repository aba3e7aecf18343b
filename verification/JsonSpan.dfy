/**
 * Locating a JSON array or object inside noisy text.
 *
 * The scanner counts one bracket kind, the one it started with. The grammar is that of
 * RFC 8259: white space and structural characters in section 2, literals in section 3, objects,
 * arrays, numbers and strings in sections 4 to 7.
 */
module JsonSpan {
  import opened Common

  // ---- the scanner ----

  datatype Scan = Scan(depth: int, inString: bool, escaped: bool)

  function Closer(opener: char): char { if opener == '[' then ']' else '}' }

  function Advance(s: Scan, c: char, opener: char): Scan {
    if s.inString then
      if s.escaped then s.(escaped := false)
      else if c == '\\' then s.(escaped := true)
      else if c == '"' then s.(inString := false)
      else s
    else if c == '"' then s.(inString := true)
    else if c == opener then s.(depth := s.depth + 1)
    else if c == Closer(opener) then s.(depth := s.depth - 1)
    else s
  }

  predicate Closes(s: Scan, c: char, opener: char) {
    !s.inString && c == Closer(opener) && s.depth == 1
  }

  // The length of the span that starts in state s, or all of the text when it never closes.
  function SpanLength(text: string, s: Scan, opener: char): (n: nat)
    ensures n <= |text|
  {
    if |text| == 0 then 0
    else if Closes(s, text[0], opener) then 1
    else 1 + SpanLength(text[1..], Advance(s, text[0], opener), opener)
  }

  predicate IsOpener(c: char) { c == '[' || c == '{' }

  function FirstOpener(text: string): (n: nat)
    ensures n <= |text|
    ensures forall i :: 0 <= i < n ==> !IsOpener(text[i])
    ensures n < |text| ==> IsOpener(text[n])
  {
    if |text| == 0 || IsOpener(text[0]) then 0 else 1 + FirstOpener(text[1..])
  }

  const Outside := Scan(0, false, false)

  function Span(text: string): string {
    var start := FirstOpener(text);
    if start == |text| then text
    else text[start..start + SpanLength(text[start..], Outside, text[start])]
  }

  // Read up to index in state s, the span from start still has the length it had.
  ghost predicate Scanning(text: string, start: nat, index: nat, s: Scan, opener: char) {
    && start <= index <= |text|
    && index - start + SpanLength(text[index..], s, opener) == SpanLength(text[start..], Outside, opener)
  }

  lemma ScanStep(text: string, start: nat, index: nat, s: Scan, opener: char)
    requires index < |text| && Scanning(text, start, index, s, opener)
    ensures if Closes(s, text[index], opener) then SpanLength(text[start..], Outside, opener) == index + 1 - start
            else Scanning(text, start, index + 1, Advance(s, text[index], opener), opener)
  {
    assert text[index..][1..] == text[index + 1..];
  }

  lemma ScanEnd(text: string, start: nat, s: Scan, opener: char)
    requires Scanning(text, start, |text|, s, opener)
    ensures SpanLength(text[start..], Outside, opener) == |text| - start
    ensures text[start..|text|] == text[start..]
  {
  }

  method ExtractJsonSpan(text: string) returns (span: string)
    ensures span == Span(text)
  {
    var start := FirstOpener(text);
    if start == |text| {
      return text;
    }
    var opener := text[start];
    var closer := Closer(opener);
    var depth, inString, escaped := 0, false, false;
    var index := start;
    ghost var state := Outside;
    while index < |text|
      invariant Scanning(text, start, index, state, opener) && state == Scan(depth, inString, escaped)
      invariant if index == start then depth == 0 && !inString else depth >= 1
    {
      var c := text[index];
      ScanStep(text, start, index, state, opener);
      state := Advance(state, c, opener);
      index := index + 1;
      if inString {
        if escaped {
          escaped := false;
        } else if c == '\\' {
          escaped := true;
        } else if c == '"' {
          inString := false;
        }
        continue;
      }
      if c == '"' {
        inString := true;
      } else if c == opener {
        depth := depth + 1;
      } else if c == closer {
        depth := depth - 1;
        if depth == 0 {
          return text[start..index];
        }
      }
    }
    ScanEnd(text, start, state, opener);
    span := text[start..];
  }

  // ---- the grammar ----

  predicate IsSpace(s: string) { forall i :: 0 <= i < |s| ==> s[i] in {' ', '\t', '\n', '\r'} }

  predicate IsDigits(s: string) { |s| > 0 && forall i :: 0 <= i < |s| ==> '0' <= s[i] <= '9' }

  predicate IsHex(c: char) { '0' <= c <= '9' || 'a' <= c <= 'f' || 'A' <= c <= 'F' }

  // One character of a string: itself, a two-character escape or a four-digit one.
  datatype StringChar = Plain(c: char) | Escape(c: char) | Unicode(hex: string) {
    predicate Valid() {
      match this
      case Plain(c) => c != '"' && c != '\\' && ' ' <= c
      case Escape(c) => c in {'"', '\\', '/', 'b', 'f', 'n', 'r', 't'}
      case Unicode(hex) => |hex| == 4 && forall i :: 0 <= i < 4 ==> IsHex(hex[i])
    }

    function Text(): string {
      match this
      case Plain(c) => [c]
      case Escape(c) => ['\\', c]
      case Unicode(hex) => "\\u" + hex
    }
  }

  datatype Exponent = Exponent(mark: char, sign: string, digits: string)

  // An optional minus, the integer part, an optional fraction and an optional exponent.
  datatype Number = Number(minus: bool, whole: string, frac: Option<string>, exp: Option<Exponent>) {
    predicate Valid() {
      && IsDigits(whole) && (whole[0] == '0' ==> |whole| == 1)
      && (frac.Some? ==> IsDigits(frac.value))
      && (exp.Some? ==> exp.value.mark in {'e', 'E'} && exp.value.sign in {"", "+", "-"} && IsDigits(exp.value.digits))
    }

    function Text(): string {
      (if minus then "-" else "") + whole
      + (if frac.Some? then "." + frac.value else "")
      + (if exp.Some? then [exp.value.mark] + exp.value.sign + exp.value.digits else "")
    }
  }

  // A syntax tree keeps every choice the grammar leaves open, white space included.
  datatype Json =
    | Literal(name: string)
    | Numeral(number: Number)
    | Str(chars: seq<StringChar>)
    | Arr(items: Items)
    | Obj(members: Members)

  // White space before, the value, white space after, then a comma and the rest or the end.
  datatype Items = NoItems(space: string) | Item(before: string, value: Json, after: string, rest: Option<Items>)
  datatype Members =
    | NoMembers(space: string)
    | Member(before: string, key: seq<StringChar>, mid: string, gap: string, value: Json, after: string,
             rest: Option<Members>)

  predicate ValidString(chars: seq<StringChar>) { forall i :: 0 <= i < |chars| ==> chars[i].Valid() }

  predicate ValidJson(j: Json) {
    match j
    case Literal(name) => name in {"true", "false", "null"}
    case Numeral(number) => number.Valid()
    case Str(chars) => ValidString(chars)
    case Arr(items) => ValidItems(items)
    case Obj(members) => ValidMembers(members)
  }

  predicate ValidItems(items: Items) {
    match items
    case NoItems(space) => IsSpace(space)
    case Item(before, value, after, rest) =>
      && IsSpace(before) && ValidJson(value) && IsSpace(after)
      && (rest.Some? ==> rest.value.Item? && ValidItems(rest.value))
  }

  predicate ValidMembers(members: Members) {
    match members
    case NoMembers(space) => IsSpace(space)
    case Member(before, key, mid, gap, value, after, rest) =>
      && IsSpace(before) && ValidString(key) && IsSpace(mid) && IsSpace(gap) && ValidJson(value) && IsSpace(after)
      && (rest.Some? ==> rest.value.Member? && ValidMembers(rest.value))
  }

  function CharsText(chars: seq<StringChar>): string {
    if |chars| == 0 then "" else chars[0].Text() + CharsText(chars[1..])
  }

  function StringText(chars: seq<StringChar>): string { "\"" + CharsText(chars) + "\"" }

  function Text(j: Json): string {
    match j
    case Literal(name) => name
    case Numeral(number) => number.Text()
    case Str(chars) => StringText(chars)
    case Arr(items) => "[" + ItemsText(items) + "]"
    case Obj(members) => "{" + MembersText(members) + "}"
  }

  function ItemsText(items: Items): string {
    match items
    case NoItems(space) => space
    case Item(before, value, after, rest) =>
      before + Text(value) + after + (if rest.Some? then "," + ItemsText(rest.value) else "")
  }

  function MembersText(members: Members): string {
    match members
    case NoMembers(space) => space
    case Member(before, key, mid, gap, value, after, rest) =>
      before + StringText(key) + mid + ":" + gap + Text(value) + after
      + (if rest.Some? then "," + MembersText(rest.value) else "")
  }

  // ---- scanning what the grammar generates ----

  // From state s the scanner passes over text without closing the span and ends in state t.
  ghost predicate Passes(text: string, s: Scan, t: Scan, opener: char)
    decreases |text|
  {
    if |text| == 0 then s == t
    else !Closes(s, text[0], opener) && Passes(text[1..], Advance(s, text[0], opener), t, opener)
  }

  lemma {:induction false} PassesConcat(a: string, b: string, s: Scan, t: Scan, u: Scan, opener: char)
    requires Passes(a, s, t, opener) && Passes(b, t, u, opener)
    ensures Passes(a + b, s, u, opener)
  {
    if |a| == 0 {
      assert a + b == b;
    } else {
      assert (a + b)[1..] == a[1..] + b;
      PassesConcat(a[1..], b, Advance(s, a[0], opener), t, u, opener);
    }
  }

  lemma {:induction false} SpanAfterPass(a: string, b: string, s: Scan, t: Scan, opener: char)
    requires Passes(a, s, t, opener)
    ensures SpanLength(a + b, s, opener) == |a| + SpanLength(b, t, opener)
  {
    if |a| == 0 {
      assert a + b == b;
    } else {
      assert (a + b)[1..] == a[1..] + b;
      SpanAfterPass(a[1..], b, Advance(s, a[0], opener), t, opener);
    }
  }

  predicate Inert(c: char) { c !in {'"', '[', ']', '{', '}'} }

  function At(depth: int): Scan { Scan(depth, false, false) }
  function Within(depth: int): Scan { Scan(depth, true, false) }

  lemma {:induction false} InertPasses(text: string, depth: int, opener: char)
    requires IsOpener(opener) && forall i :: 0 <= i < |text| ==> Inert(text[i])
    ensures Passes(text, At(depth), At(depth), opener)
  {
    if |text| != 0 {
      InertPasses(text[1..], depth, opener);
    }
  }

  lemma StringCharPasses(c: StringChar, depth: int, opener: char)
    requires c.Valid()
    ensures Passes(c.Text(), Within(depth), Within(depth), opener)
  {
    match c
    case Plain(x) => assert [x][1..] == [];
    case Escape(x) => assert ['\\', x][1..] == [x] && [x][1..] == [];
    case Unicode(hex) =>
      var text := "\\u" + hex;
      assert text[1..] == "u" + hex && ("u" + hex)[1..] == hex;
      HexPasses(hex, depth, opener);
  }

  lemma {:induction false} HexPasses(hex: string, depth: int, opener: char)
    requires forall i :: 0 <= i < |hex| ==> IsHex(hex[i])
    ensures Passes(hex, Within(depth), Within(depth), opener)
  {
    if |hex| != 0 {
      HexPasses(hex[1..], depth, opener);
    }
  }

  lemma {:induction false} CharsPass(chars: seq<StringChar>, depth: int, opener: char)
    requires ValidString(chars)
    ensures Passes(CharsText(chars), Within(depth), Within(depth), opener)
  {
    if |chars| != 0 {
      StringCharPasses(chars[0], depth, opener);
      CharsPass(chars[1..], depth, opener);
      PassesConcat(chars[0].Text(), CharsText(chars[1..]), Within(depth), Within(depth), Within(depth), opener);
    }
  }

  lemma OneChar(c: char, s: Scan, opener: char)
    requires !Closes(s, c, opener)
    ensures Passes([c], s, Advance(s, c, opener), opener)
  {
    assert [c][1..] == [];
  }

  lemma StringPasses(chars: seq<StringChar>, depth: int, opener: char)
    requires IsOpener(opener) && ValidString(chars)
    ensures Passes(StringText(chars), At(depth), At(depth), opener)
  {
    OneChar('"', At(depth), opener);
    OneChar('"', Within(depth), opener);
    CharsPass(chars, depth, opener);
    PassesConcat("\"", CharsText(chars), At(depth), Within(depth), Within(depth), opener);
    PassesConcat("\"" + CharsText(chars), "\"", At(depth), Within(depth), At(depth), opener);
  }

  lemma NumberIsInert(n: Number)
    requires n.Valid()
    ensures forall i :: 0 <= i < |n.Text()| ==> Inert(n.Text()[i])
  {
  }

  // Four pieces read one after the other.
  lemma PassPieces(a: string, b: string, c: string, d: string, depth: int, opener: char)
    requires Passes(a, At(depth), At(depth), opener) && Passes(b, At(depth), At(depth), opener)
    requires Passes(c, At(depth), At(depth), opener) && Passes(d, At(depth), At(depth), opener)
    ensures Passes(a + b + c + d, At(depth), At(depth), opener)
  {
    PassesConcat(a, b, At(depth), At(depth), At(depth), opener);
    PassesConcat(a + b, c, At(depth), At(depth), At(depth), opener);
    PassesConcat(a + b + c, d, At(depth), At(depth), At(depth), opener);
  }

  // Brackets of the counted kind go one deeper and come back; the other kind is not seen.
  lemma BracketsPass(inner: string, open: char, depth: int, opener: char)
    requires IsOpener(opener) && IsOpener(open) && depth >= 1
    requires forall d :: d >= 1 ==> Passes(inner, At(d), At(d), opener)
    ensures Passes([open] + inner + [Closer(open)], At(depth), At(depth), opener)
  {
    var inside := if open == opener then depth + 1 else depth;
    OneChar(open, At(depth), opener);
    OneChar(Closer(open), At(inside), opener);
    PassesConcat([open], inner, At(depth), At(inside), At(inside), opener);
    PassesConcat([open] + inner, [Closer(open)], At(depth), At(inside), At(depth), opener);
  }

  // Below the top level the scanner passes over any value and comes back to the depth it had.
  lemma {:induction false} ValuePasses(j: Json, depth: int, opener: char)
    requires IsOpener(opener) && ValidJson(j) && depth >= 1
    ensures Passes(Text(j), At(depth), At(depth), opener)
  {
    match j
    case Literal(name) => InertPasses(name, depth, opener);
    case Numeral(number) =>
      NumberIsInert(number);
      InertPasses(number.Text(), depth, opener);
    case Str(chars) => StringPasses(chars, depth, opener);
    case Arr(items) =>
      forall d | d >= 1 ensures Passes(ItemsText(items), At(d), At(d), opener) { ItemsPass(items, d, opener); }
      BracketsPass(ItemsText(items), '[', depth, opener);
    case Obj(members) =>
      forall d | d >= 1 ensures Passes(MembersText(members), At(d), At(d), opener) { MembersPass(members, d, opener); }
      BracketsPass(MembersText(members), '{', depth, opener);
  }

  lemma {:induction false} ItemsPass(items: Items, depth: int, opener: char)
    requires IsOpener(opener) && ValidItems(items) && depth >= 1
    ensures Passes(ItemsText(items), At(depth), At(depth), opener)
  {
    match items
    case NoItems(space) => InertPasses(space, depth, opener);
    case Item(before, value, after, rest) =>
      InertPasses(before, depth, opener);
      ValuePasses(value, depth, opener);
      InertPasses(after, depth, opener);
      var tail := if rest.Some? then "," + ItemsText(rest.value) else "";
      if rest.Some? {
        InertPasses(",", depth, opener);
        ItemsPass(rest.value, depth, opener);
        PassesConcat(",", ItemsText(rest.value), At(depth), At(depth), At(depth), opener);
      }
      PassPieces(before, Text(value), after, tail, depth, opener);
  }

  lemma {:induction false} MembersPass(members: Members, depth: int, opener: char)
    requires IsOpener(opener) && ValidMembers(members) && depth >= 1
    ensures Passes(MembersText(members), At(depth), At(depth), opener)
  {
    match members
    case NoMembers(space) => InertPasses(space, depth, opener);
    case Member(before, key, mid, gap, value, after, rest) =>
      InertPasses(before, depth, opener);
      StringPasses(key, depth, opener);
      InertPasses(mid, depth, opener);
      InertPasses(":", depth, opener);
      PassPieces(before, StringText(key), mid, ":", depth, opener);
      InertPasses(gap, depth, opener);
      ValuePasses(value, depth, opener);
      InertPasses(after, depth, opener);
      PassPieces(before + StringText(key) + mid + ":", gap, Text(value), after, depth, opener);
      if rest.Some? {
        InertPasses(",", depth, opener);
        MembersPass(rest.value, depth, opener);
        PassesConcat(",", MembersText(rest.value), At(depth), At(depth), At(depth), opener);
        PassesConcat(before + StringText(key) + mid + ":" + gap + Text(value) + after, "," + MembersText(rest.value),
                     At(depth), At(depth), At(depth), opener);
      } else {
        var whole := before + StringText(key) + mid + ":" + gap + Text(value) + after;
        assert whole + "" == whole;
      }
  }

  lemma ClosingEnds(inner: string, open: char, suffix: string)
    requires IsOpener(open) && Passes(inner, At(1), At(1), open)
    ensures SpanLength([open] + inner + [Closer(open)] + suffix, Outside, open) == |inner| + 2
  {
    OneChar(open, Outside, open);
    PassesConcat([open], inner, Outside, At(1), At(1), open);
    SpanAfterPass([open] + inner, [Closer(open)] + suffix, Outside, At(1), open);
    assert [open] + inner + [Closer(open)] + suffix == [open] + inner + ([Closer(open)] + suffix);
  }

  lemma {:induction false} FirstOpenerAfter(prefix: string, rest: string)
    requires (forall i :: 0 <= i < |prefix| ==> !IsOpener(prefix[i])) && |rest| > 0 && IsOpener(rest[0])
    ensures FirstOpener(prefix + rest) == |prefix|
  {
    if |prefix| == 0 {
      assert prefix + rest == rest;
    } else {
      assert (prefix + rest)[1..] == prefix[1..] + rest;
      FirstOpenerAfter(prefix[1..], rest);
    }
  }

  // The scanner closes an array or object exactly at its last character.
  lemma SpanOfValue(j: Json, suffix: string)
    requires ValidJson(j) && (j.Arr? || j.Obj?)
    ensures IsOpener(Text(j)[0])
    ensures SpanLength(Text(j) + suffix, Outside, Text(j)[0]) == |Text(j)|
  {
    var open := if j.Arr? then '[' else '{';
    var inner := if j.Arr? then ItemsText(j.items) else MembersText(j.members);
    assert Text(j) == [open] + inner + [Closer(open)];
    if j.Arr? {
      ItemsPass(j.items, 1, open);
    } else {
      MembersPass(j.members, 1, open);
    }
    ClosingEnds(inner, open, suffix);
  }

  // For every array or object the grammar generates, whatever text without an opening bracket
  // comes before it and whatever text at all comes after it, extraction returns exactly it.
  lemma ExtractionIsExact(prefix: string, j: Json, suffix: string)
    requires ValidJson(j) && (j.Arr? || j.Obj?)
    requires forall i :: 0 <= i < |prefix| ==> !IsOpener(prefix[i])
    ensures Span(prefix + Text(j) + suffix) == Text(j)
  {
    SpanOfValue(j, suffix);
    var text := prefix + Text(j) + suffix;
    assert text == prefix + (Text(j) + suffix);
    FirstOpenerAfter(prefix, Text(j) + suffix);
    assert text[|prefix|..] == Text(j) + suffix;
  }

  // ---- extraction on any text ----

  // Cutting a text short cuts its span short and does nothing else to it.
  lemma {:induction false} SpanLengthOfPrefix(text: string, k: nat, s: Scan, opener: char)
    requires k <= |text|
    ensures SpanLength(text[..k], s, opener) == if k < SpanLength(text, s, opener) then k
                                               else SpanLength(text, s, opener)
  {
    if k != 0 && !Closes(s, text[0], opener) {
      assert text[..k][1..] == text[1..][..k - 1];
      SpanLengthOfPrefix(text[1..], k - 1, Advance(s, text[0], opener), opener);
    }
  }

  // Extracting from an extracted span changes nothing, JSON or not.
  lemma ExtractionIsIdempotent(text: string)
    ensures Span(Span(text)) == Span(text)
  {
    var start := FirstOpener(text);
    if start < |text| {
      var n := SpanLength(text[start..], Outside, text[start]);
      var span := Span(text);
      assert span == text[start..][..n];
      SpanLengthOfPrefix(text[start..], n, Outside, text[start]);
      assert n > 0 && span[0] == text[start] && FirstOpener(span) == 0;
      assert span[0..] == span;
    }
  }

  // A response cut off anywhere inside its JSON value yields all of the part that arrived: the
  // scanner never takes an inner bracket for the last one.
  lemma TruncatedJsonIsKeptWhole(prefix: string, j: Json, k: nat)
    requires ValidJson(j) && (j.Arr? || j.Obj?) && 0 < k <= |Text(j)|
    requires forall i :: 0 <= i < |prefix| ==> !IsOpener(prefix[i])
    ensures Span(prefix + Text(j)[..k]) == Text(j)[..k]
  {
    var open := Text(j)[0];
    SpanOfValue(j, "");
    assert Text(j) + "" == Text(j);
    SpanLengthOfPrefix(Text(j), k, Outside, open);
    FirstOpenerAfter(prefix, Text(j)[..k]);
    assert (prefix + Text(j)[..k])[|prefix|..] == Text(j)[..k];
  }
}
