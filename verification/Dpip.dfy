/**
 * The Dillo plugin protocol's tags (examples/dillo/src/dpip.ts): printing, parsing, and framing a byte stream. One
 * character stands for one byte.
 */
module Dpip {
  import opened Bytes

  datatype Attr = Attr(name: string, value: string)

  const PROTO := "__proto__"

  /** White space as a regular expression's \s matches it. */
  predicate IsSpace(c: char) {
    var n := c as int;
    (9 <= n <= 13) || n == 32 || n == 160 || n == 0x1680 || 0x2000 <= n <= 0x200A || n == 0x2028 || n == 0x2029
    || n == 0x202F || n == 0x205F || n == 0x3000 || n == 0xFEFF
  }

  predicate ValidName(name: string) {
    name != "" && forall c :: c in name ==> !IsSpace(c) && c != '=' && c != '\'' && c != '<' && c != '>'
  }

  // ------------------------------------------------------------ printing

  function Quoted(value: string): string {
    if value == "" then "" else (if value[0] == '\'' then "''" else [value[0]]) + Quoted(value[1..])
  }

  function Printed(a: Attr): string { a.name + "='" + Quoted(a.value) + "' " }

  function Body(attrs: seq<Attr>): string {
    if attrs == [] then "" else Printed(attrs[0]) + Body(attrs[1..])
  }

  function Tag(attrs: seq<Attr>): string { "<" + Body(attrs) + "'>" }

  predicate ValidNames(attrs: seq<Attr>) { forall i :: 0 <= i < |attrs| ==> ValidName(attrs[i].name) }

  /** None is the TypeError for an invalid name. */
  method BuildTag(attrs: seq<Attr>) returns (tag: Option<string>)
    ensures tag == if ValidNames(attrs) then Some(Tag(attrs)) else None
  {
    var out := "<";
    for i := 0 to |attrs|
      invariant forall j :: 0 <= j < i ==> ValidName(attrs[j].name)
      invariant out + Body(attrs[i..]) == "<" + Body(attrs)
    {
      if !ValidName(attrs[i].name) { return None; }
      assert attrs[i..][1..] == attrs[i + 1..];
      assert out + (Printed(attrs[i]) + Body(attrs[i + 1..])) == (out + Printed(attrs[i])) + Body(attrs[i + 1..]);
      out := out + Printed(attrs[i]);
    }
    assert out + "" == out;
    return Some(out + "'>");
  }

  // ------------------------------------------------------------ parsing

  datatype Problem = BadStart | BadTerminator | NoValue | BadName | Unterminated | NoTerminator

  datatype Parsed = Parsed(attrs: map<string, string>) | Malformed(problem: Problem)

  /** Assigning to a fresh object's property: the inherited setter swallows one name. */
  function Assign(attrs: map<string, string>, name: string, value: string): map<string, string> {
    if name == PROTO then attrs else attrs[name := value]
  }

  function AssignAll(attrs: map<string, string>, list: seq<Attr>): map<string, string>
    decreases |list|
  {
    if list == [] then attrs else AssignAll(Assign(attrs, list[0].name, list[0].value), list[1..])
  }

  /** Where the first quote is, or the length. */
  function FirstQuote(s: string): (q: nat)
    ensures q <= |s|
    ensures q < |s| ==> s[q] == '\''
    ensures forall j :: 0 <= j < q ==> s[j] != '\''
  {
    if s == "" || s[0] == '\'' then 0 else 1 + FirstQuote(s[1..])
  }

  /** Where the first `='` is, or the length. */
  function FirstAssign(s: string): (q: nat)
    ensures q <= |s|
    ensures q < |s| ==> q + 1 < |s| && s[q] == '=' && s[q + 1] == '\''
    ensures forall j :: 0 <= j < q && j + 1 < |s| ==> !(s[j] == '=' && s[j + 1] == '\'')
  {
    if s == "" then 0
    else if |s| > 1 && s[0] == '=' && s[1] == '\'' then 0
    else 1 + FirstAssign(s[1..])
  }

  /** A value and what follows its closing quote; or no closing quote. */
  datatype Value = Value(text: string, rest: string) | Unclosed

  function Prepend(front: string, v: Value): Value {
    if v.Unclosed? then v else Value(front + v.text, v.rest)
  }

  lemma PrependTwice(a: string, b: string, v: Value)
    ensures Prepend(a, Prepend(b, v)) == Prepend(a + b, v)
  {
    if v.Value? { assert a + (b + v.text) == a + b + v.text; }
  }

  /** A value up to its closing quote, doubled quotes undone. */
  function ReadValue(s: string): (v: Value)
    ensures v.Value? ==> |v.rest| < |s|
    decreases |s|, 1
  {
    ReadFrom(s, FirstQuote(s))
  }

  /** The same, from its first quote on. */
  function ReadFrom(s: string, q: nat): (v: Value)
    requires q <= |s|
    ensures v.Value? ==> |v.rest| < |s|
    decreases |s|, 0
  {
    if q == |s| then Unclosed
    else if q + 1 < |s| && s[q + 1] == '\'' then Prepend(s[..q] + "'", ReadValue(s[q + 2..]))
    else Value(s[..q], s[q + 1..])
  }

  predicate BadNameIn(name: string) { name == "" || exists c :: c in name && (IsSpace(c) || c == '\'') }

  function ParseRest(rest: string, attrs: map<string, string>): Parsed
    decreases |rest|
  {
    if rest == "" then Malformed(NoTerminator)
    else if rest[0] == ' ' then ParseRest(rest[1..], attrs)
    else if rest[0] == '\'' then
      if |rest| > 1 && rest[1] == '>' then Parsed(attrs) else Malformed(BadTerminator)
    else
      var eq := FirstAssign(rest);
      if eq == |rest| then Malformed(NoValue)
      else if BadNameIn(rest[..eq]) then Malformed(BadName)
      else
        var v := ReadValue(rest[eq + 2..]);
        if v.Unclosed? then Malformed(Unterminated)
        else ParseRest(v.rest, Assign(attrs, rest[..eq], v.text))
  }

  function Parse(tag: string): Parsed {
    if tag == "" || tag[0] != '<' then Malformed(BadStart) else ParseRest(tag[1..], map[])
  }

  lemma ReadStep(s: string, q: nat)
    requires q == FirstQuote(s)
    ensures ReadValue(s) ==
              if q == |s| then Unclosed
              else if q + 1 < |s| && s[q + 1] == '\'' then Prepend(s[..q] + "'", ReadValue(s[q + 2..]))
              else Value(s[..q], s[q + 1..])
  {
    hide FirstQuote, Prepend;
    assert ReadValue(s) == ReadFrom(s, q);
  }

  /** The same, with a front part read already. */
  lemma ReadOn(front: string, s: string, q: nat)
    requires q == FirstQuote(s)
    ensures q == |s| ==> Prepend(front, ReadValue(s)) == Unclosed
    ensures q < |s| && !(q + 1 < |s| && s[q + 1] == '\'') ==> Prepend(front, ReadValue(s)) == Value(front + s[..q], s[q + 1..])
    ensures q + 1 < |s| && s[q + 1] == '\'' ==>
              Prepend(front, ReadValue(s)) == Prepend(front + s[..q] + "'", ReadValue(s[q + 2..]))
  {
    ReadStep(s, q);
    hide ReadValue, FirstQuote;
    if q + 1 < |s| && s[q + 1] == '\'' {
      PrependTwice(front, s[..q] + "'", ReadValue(s[q + 2..]));
      assert front + (s[..q] + "'") == front + s[..q] + "'";
    }
  }

  lemma PrependNothing(v: Value)
    ensures Prepend("", v) == v
  {
    if v.Value? { assert "" + v.text == v.text; }
  }

  method ReadValueAt(tag: string, start: nat) returns (value: string, next: nat, ok: bool)
    requires start <= |tag|
    ensures start <= next <= |tag| && (ok ==> start < next)
    ensures ReadValue(tag[start..]) == if ok then Value(value, tag[next..]) else Unclosed
  {
    hide *;
    var i := start;
    value := "";
    ghost var all := ReadValue(tag[start..]);
    PrependNothing(all);
    while true
      invariant start <= i <= |tag| && all == Prepend(value, ReadValue(tag[i..]))
      decreases |tag| - i
    {
      var rest := tag[i..];
      var n := FirstQuote(rest);
      ReadOn(value, rest, n);
      if n == |rest| { return value, i, false; }
      value := value + rest[..n];
      if n + 1 == |rest| || rest[n + 1] != '\'' {
        assert rest[n + 1..] == tag[i + n + 1..];
        return value, i + n + 1, true;
      }
      assert rest[n + 2..] == tag[i + n + 2..];
      value := value + "'";
      i := i + n + 2;
    }
  }

  lemma ParseStart(tag: string)
    ensures Parse(tag) == if tag == "" || tag[0] != '<' then Malformed(BadStart) else ParseRest(tag[1..], map[])
  {
  }

  lemma ParseSpace(rest: string, attrs: map<string, string>)
    requires rest != "" && rest[0] == ' '
    ensures ParseRest(rest, attrs) == ParseRest(rest[1..], attrs)
  {
  }

  lemma ParseEnd(rest: string, attrs: map<string, string>)
    requires rest == "" || rest[0] == '\''
    ensures ParseRest(rest, attrs) == if rest == "" then Malformed(NoTerminator)
                                      else if |rest| > 1 && rest[1] == '>' then Parsed(attrs) else Malformed(BadTerminator)
  {
  }

  lemma ParseAttr(rest: string, attrs: map<string, string>)
    requires rest != "" && rest[0] != ' ' && rest[0] != '\''
    ensures var eq := FirstAssign(rest);
            ParseRest(rest, attrs) ==
              if eq == |rest| then Malformed(NoValue)
              else if BadNameIn(rest[..eq]) then Malformed(BadName)
              else
                var v := ReadValue(rest[eq + 2..]);
                if v.Unclosed? then Malformed(Unterminated)
                else ParseRest(v.rest, Assign(attrs, rest[..eq], v.text))
  {
  }

  method ParseTag(tag: string) returns (r: Parsed)
    ensures r == Parse(tag)
  {
    hide *;
    ParseStart(tag);
    if tag == "" || tag[0] != '<' { return Malformed(BadStart); }
    var attrs: map<string, string> := map[];
    var i := 1;
    while i < |tag|
      invariant 1 <= i <= |tag| && ParseRest(tag[i..], attrs) == Parse(tag)
    {
      if tag[i] == ' ' {
        ParseSpace(tag[i..], attrs);
        assert tag[i..][1..] == tag[i + 1..];
        i := i + 1;
        continue;
      }
      if tag[i] == '\'' {
        ParseEnd(tag[i..], attrs);
        return if i + 1 < |tag| && tag[i + 1] == '>' then Parsed(attrs) else Malformed(BadTerminator);
      }
      ParseAttr(tag[i..], attrs);
      var eq := i + FirstAssign(tag[i..]);
      if eq == |tag| { return Malformed(NoValue); }
      var name := tag[i..eq];
      assert name == tag[i..][..eq - i] && tag[i..][eq - i + 2..] == tag[eq + 2..];
      if BadNameIn(name) { return Malformed(BadName); }
      var value, next, ok := ReadValueAt(tag, eq + 2);
      if !ok { return Malformed(Unterminated); }
      attrs := Assign(attrs, name, value);
      i := next;
    }
    ParseEnd(tag[i..], attrs);
    return Malformed(NoTerminator);
  }

  // ------------------------------------------------------------ parsing inverts printing

  lemma ReadValueCons(c: char, s: string)
    requires c != '\''
    ensures ReadValue([c] + s) == Prepend([c], ReadValue(s))
  {
    var u, q := [c] + s, FirstQuote(s);
    assert u[1..] == s;
    assert FirstQuote(u) == q + 1;
    ReadStep(u, q + 1);
    ReadStep(s, q);
    hide ReadValue, FirstQuote;
    if q < |s| {
      assert u[..q + 1] == [c] + s[..q] && u[q + 2..] == s[q + 1..];
      if q + 1 < |s| && s[q + 1] == '\'' {
        assert u[q + 3..] == s[q + 2..];
        PrependTwice([c], s[..q] + "'", ReadValue(s[q + 2..]));
        assert [c] + (s[..q] + "'") == u[..q + 1] + "'";
      }
    }
  }

  lemma ReadValueDoubled(s: string)
    ensures ReadValue("''" + s) == Prepend("'", ReadValue(s))
  {
    var u := "''" + s;
    assert u[0] == '\'' && u[1] == '\'' && u[2..] == s && FirstQuote(u) == 0;
    ReadStep(u, 0);
    assert u[..0] + "'" == "'";
  }

  lemma ReadClosing(suffix: string)
    requires suffix != "" && suffix[0] != '\''
    ensures ReadValue("'" + suffix) == Value("", suffix)
  {
    var s := "'" + suffix;
    assert s[1..] == suffix && FirstQuote(s) == 0;
  }

  /** A printed value reads back, whatever quotes it holds. */
  lemma {:induction false} ReadQuoted(value: string, suffix: string)
    requires suffix != "" && suffix[0] != '\''
    ensures ReadValue(Quoted(value) + "'" + suffix) == Value(value, suffix)
  {
    hide ReadValue;
    if value == "" {
      assert Quoted(value) + "'" + suffix == "'" + suffix;
      ReadClosing(suffix);
    } else {
      var tail := Quoted(value[1..]) + "'" + suffix;
      ReadQuoted(value[1..], suffix);
      assert [value[0]] + value[1..] == value;
      if value[0] == '\'' {
        assert Quoted(value) + "'" + suffix == "''" + tail;
        ReadValueDoubled(tail);
      } else {
        assert Quoted(value) + "'" + suffix == [value[0]] + tail;
        ReadValueCons(value[0], tail);
      }
    }
  }

  lemma NameEnds(name: string, rest: string)
    requires ValidName(name)
    ensures FirstAssign(name + "='" + rest) == |name| && !BadNameIn(name)
    ensures name[0] != ' ' && name[0] != '\''
  {
    var s := name + "='" + rest;
    assert s[|name|] == '=' && s[|name| + 1] == '\'';
    assert forall j :: 0 <= j < |name| ==> s[j] == name[j] && name[j] in name;
    assert !IsSpace(name[0]);
  }

  /** Parsing the rest of a printed tag assigns the attributes in order. */
  lemma {:induction false} ParsePrinted(attrs: seq<Attr>, acc: map<string, string>)
    requires ValidNames(attrs)
    ensures ParseRest(Body(attrs) + "'>", acc) == Parsed(AssignAll(acc, attrs))
    decreases |attrs|
  {
    hide ParseRest, Quoted;
    if attrs == [] {
      assert Body(attrs) + "'>" == "'>";
      ParseEnd("'>", acc);
    } else {
      var a, rest := attrs[0], Body(attrs[1..]) + "'>";
      ParsePrinted(attrs[1..], Assign(acc, a.name, a.value));
      OnePrinted(a, rest, acc);
      assert Body(attrs) + "'>" == a.name + "='" + (Quoted(a.value) + "'" + (" " + rest));
    }
  }

  /** One printed attribute is assigned, and the space behind it skipped. */
  lemma OnePrinted(a: Attr, rest: string, acc: map<string, string>)
    requires ValidName(a.name)
    ensures ParseRest(a.name + "='" + (Quoted(a.value) + "'" + (" " + rest)), acc) == ParseRest(rest, Assign(acc, a.name, a.value))
  {
    hide ParseRest, Quoted;
    var value := Quoted(a.value) + "'" + (" " + rest);
    var s := a.name + "='" + value;
    NameEnds(a.name, value);
    assert s[..|a.name|] == a.name && s[|a.name| + 2..] == value && s[0] == a.name[0];
    ReadQuoted(a.value, " " + rest);
    assert (" " + rest)[1..] == rest;
    ParseAttr(s, acc);
    ParseSpace(" " + rest, Assign(acc, a.name, a.value));
  }

  predicate Distinct(attrs: seq<Attr>) {
    forall i, j :: 0 <= i < j < |attrs| ==> attrs[i].name != attrs[j].name
  }

  function ToMap(attrs: seq<Attr>): map<string, string> {
    if attrs == [] then map[] else ToMap(attrs[..|attrs| - 1])[attrs[|attrs| - 1].name := attrs[|attrs| - 1].value]
  }

  lemma {:induction false} AssignAllSnoc(acc: map<string, string>, attrs: seq<Attr>, a: Attr)
    ensures AssignAll(acc, attrs + [a]) == Assign(AssignAll(acc, attrs), a.name, a.value)
    decreases |attrs|
  {
    if attrs == [] {
      assert (attrs + [a])[1..] == [];
    } else {
      assert (attrs + [a])[1..] == attrs[1..] + [a];
      AssignAllSnoc(Assign(acc, attrs[0].name, attrs[0].value), attrs[1..], a);
    }
  }

  lemma {:induction false} AssignedIs(attrs: seq<Attr>)
    ensures PROTO !in AssignAll(map[], attrs)
    ensures (forall i :: 0 <= i < |attrs| ==> attrs[i].name != PROTO) ==> AssignAll(map[], attrs) == ToMap(attrs)
    ensures (exists i :: 0 <= i < |attrs| && attrs[i].name == PROTO) ==> PROTO in ToMap(attrs)
  {
    if attrs != [] {
      var front, last := attrs[..|attrs| - 1], attrs[|attrs| - 1];
      AssignedIs(front);
      assert attrs == front + [last];
      AssignAllSnoc(map[], front, last);
    }
  }

  lemma ParseOfTag(attrs: seq<Attr>)
    requires ValidNames(attrs)
    ensures Parse(Tag(attrs)) == Parsed(AssignAll(map[], attrs))
  {
    assert Tag(attrs)[1..] == Body(attrs) + "'>";
    ParsePrinted(attrs, map[]);
  }

  /**
   * Parsing inverts printing, for any valid names and any values, exactly when no attribute is named __proto__:
   * assigning that one to the result object is lost.
   */
  lemma ParseInvertsBuild(attrs: seq<Attr>)
    requires ValidNames(attrs)
    ensures Parse(Tag(attrs)) == Parsed(ToMap(attrs)) <==> forall i :: 0 <= i < |attrs| ==> attrs[i].name != PROTO
    ensures Parse(Tag(attrs)).Parsed?
  {
    ParseOfTag(attrs);
    AssignedIs(attrs);
    hide *;
  }

  /** Of distinct names, each is mapped to its own value. */
  lemma {:induction false} ToMapHolds(attrs: seq<Attr>)
    requires Distinct(attrs)
    ensures forall i :: 0 <= i < |attrs| ==> attrs[i].name in ToMap(attrs) && ToMap(attrs)[attrs[i].name] == attrs[i].value
    ensures forall k :: k in ToMap(attrs) ==> exists i :: 0 <= i < |attrs| && attrs[i].name == k
  {
    if attrs != [] { ToMapHolds(attrs[..|attrs| - 1]); }
  }

  /** The one name that does not survive. */
  lemma ProtoIsLost() returns (attrs: seq<Attr>)
    ensures ValidNames(attrs) && Distinct(attrs) && Parse(Tag(attrs)) != Parsed(ToMap(attrs))
  {
    hide Parse, Tag, ToMap;
    attrs := [Attr("__proto__", "x")];
    assert attrs[0].name == PROTO;
    ParseInvertsBuild(attrs);
  }

  // ------------------------------------------------------------ exactly what parses

  /** The code points that count as white space, one by one. */
  lemma SpacesAre(c: char)
    ensures IsSpace(c) <==>
              c as int in {9, 10, 11, 12, 13, 32, 160, 0x1680, 0x2000, 0x2001, 0x2002, 0x2003, 0x2004, 0x2005, 0x2006, 0x2007,
                           0x2008, 0x2009, 0x200A, 0x2028, 0x2029, 0x202F, 0x205F, 0x3000, 0xFEFF}
  {
  }

  /** A tag as it is printed, character for character. */
  lemma TagOfOne()
    ensures Tag([Attr("a", "b'c")]) == "<a='b''c' '>" && Tag([]) == "<'>"
  {
    var one := [Attr("a", "b'c")];
    assert Quoted("b'c") == "b''c" by {
      assert "c"[1..] == "" && "'c"[1..] == "c" && "b'c"[1..] == "'c";
      assert Quoted("c") == "c" && Quoted("'c") == "''c";
    }
    assert Body(one) == "a='b''c' " by {
      assert one[1..] == [];
      assert Printed(one[0]) == "a='b''c' ";
      hide Printed, Quoted;
    }
    hide Body;
    assert Body([]) == "";
  }

  predicate Blank(s: string) { forall i :: 0 <= i < |s| ==> s[i] == ' ' }

  /** What the parser takes for a name: anything but white space and quotes, and not nothing. */
  predicate PlainName(name: string) {
    name != "" && forall i :: 0 <= i < |name| ==> !IsSpace(name[i]) && name[i] != '\''
  }

  /**
   * `rest`, what follows the '<', spells these attributes: each after any number of spaces, its value between quotes and
   * with its own quotes doubled; then spaces, a quote and '>'. Whatever comes after that is not looked at.
   */
  ghost predicate Spells(rest: string, attrs: seq<Attr>)
    decreases |attrs|
  {
    if attrs == [] then exists gap: string, more: string :: Blank(gap) && rest == gap + ("'>" + more)
    else
      PlainName(attrs[0].name)
      && exists gap: string, more: string :: Blank(gap) && (more == "" || more[0] != '\'') && Spells(more, attrs[1..])
           && rest == gap + Spelt(attrs[0], more)
  }

  function Spelt(a: Attr, more: string): string { a.name + "='" + (Quoted(a.value) + "'" + more) }

  lemma {:induction false} GapSkipped(gap: string, s: string, acc: map<string, string>)
    requires Blank(gap)
    ensures ParseRest(gap + s, acc) == ParseRest(s, acc)
    decreases |gap|
  {
    if gap == "" {
      assert gap + s == s;
    } else {
      assert (gap + s)[1..] == gap[1..] + s;
      ParseSpace(gap + s, acc);
      GapSkipped(gap[1..], s, acc);
    }
  }

  lemma PlainNameEnds(name: string, rest: string)
    requires PlainName(name)
    ensures FirstAssign(name + "='" + rest) == |name| && !BadNameIn(name) && name[0] != ' '
  {
    var s := name + "='" + rest;
    assert s[|name|] == '=' && s[|name| + 1] == '\'';
    assert forall j :: 0 <= j < |name| ==> s[j] == name[j];
    assert !IsSpace(name[0]);
  }

  lemma {:induction false} SpelledParses(rest: string, attrs: seq<Attr>, acc: map<string, string>)
    requires Spells(rest, attrs)
    ensures ParseRest(rest, acc) == Parsed(AssignAll(acc, attrs))
    decreases |attrs|
  {
    hide ParseRest, Spelt;
    if attrs == [] {
      var gap: string, more: string :| Blank(gap) && rest == gap + ("'>" + more);
      GapSkipped(gap, "'>" + more, acc);
      ParseEnd("'>" + more, acc);
    } else {
      var a := attrs[0];
      var gap: string, more: string :| Blank(gap) && (more == "" || more[0] != '\'') && Spells(more, attrs[1..])
        && rest == gap + Spelt(a, more);
      SpelledParses(more, attrs[1..], Assign(acc, a.name, a.value));
      NotEmpty(more, attrs[1..]);
      AttributeParses(gap, a, more, acc);
    }
  }

  lemma NotEmpty(rest: string, attrs: seq<Attr>)
    requires Spells(rest, attrs)
    ensures rest != ""
  {
  }

  lemma AttributeParses(gap: string, a: Attr, more: string, acc: map<string, string>)
    requires Blank(gap) && PlainName(a.name) && more != "" && more[0] != '\''
    ensures ParseRest(gap + Spelt(a, more), acc) == ParseRest(more, Assign(acc, a.name, a.value))
  {
    hide ParseRest;
    var value := Quoted(a.value) + "'" + more;
    var s := a.name + "='" + value;
    GapSkipped(gap, s, acc);
    PlainNameEnds(a.name, value);
    ReadQuoted(a.value, more);
    assert s[..|a.name|] == a.name && s[|a.name| + 2..] == value && s[0] == a.name[0];
    ParseAttr(s, acc);
  }

  /** A value that was read is the text up to the quote that ended it, quotes doubled again. */
  lemma {:induction false} ReadIsQuoted(s: string)
    ensures var v := ReadValue(s);
            v.Value? ==> s == Quoted(v.text) + "'" + v.rest && (v.rest == "" || v.rest[0] != '\'')
    decreases |s|
  {
    var q := FirstQuote(s);
    ReadStep(s, q);
    hide ReadValue, FirstQuote;
    if q < |s| {
      QuotedPlain(s[..q]);
      if q + 1 < |s| && s[q + 1] == '\'' {
        ReadIsQuoted(s[q + 2..]);
        var inner := ReadValue(s[q + 2..]);
        if inner.Value? { DoubledIsQuoted(s, q, inner); }
      } else {
        assert s == s[..q] + "'" + s[q + 1..];
      }
    }
  }

  lemma DoubledIsQuoted(s: string, q: nat, inner: Value)
    requires q + 1 < |s| && s[q] == '\'' && s[q + 1] == '\'' && Quoted(s[..q]) == s[..q]
    requires inner.Value? && s[q + 2..] == Quoted(inner.text) + "'" + inner.rest
    ensures s == Quoted(s[..q] + "'" + inner.text) + "'" + inner.rest
  {
    var front, text := s[..q], inner.text;
    QuotedConcat(front, "'" + text);
    assert ("'" + text)[1..] == text;
    assert Quoted("'" + text) == "''" + Quoted(text);
    assert front + "'" + text == front + ("'" + text);
    hide Quoted;
    assert s == front + ("''" + s[q + 2..]);
    Nested(front, Quoted(text), inner.rest);
  }

  lemma Nested(front: string, quoted: string, rest: string)
    ensures front + ("''" + (quoted + "'" + rest)) == front + ("''" + quoted) + "'" + rest
  {
  }

  lemma {:induction false} QuotedPlain(s: string)
    requires forall i :: 0 <= i < |s| ==> s[i] != '\''
    ensures Quoted(s) == s
  {
    if s != "" { QuotedPlain(s[1..]); }
  }

  lemma {:induction false} QuotedConcat(a: string, b: string)
    ensures Quoted(a + b) == Quoted(a) + Quoted(b)
    decreases |a|
  {
    if a == "" {
      assert a + b == b;
    } else {
      assert (a + b)[1..] == a[1..] + b;
      QuotedConcat(a[1..], b);
    }
  }

  /** Whatever parses spells the attributes that were assigned. */
  lemma {:induction false} ParsedIsSpelled(rest: string, acc: map<string, string>) returns (attrs: seq<Attr>)
    requires ParseRest(rest, acc).Parsed?
    ensures Spells(rest, attrs) && ParseRest(rest, acc) == Parsed(AssignAll(acc, attrs))
    decreases |rest|
  {
    hide ParseRest;
    if rest != "" && rest[0] == ' ' {
      ParseSpace(rest, acc);
      attrs := ParsedIsSpelled(rest[1..], acc);
      OneMoreSpace(rest, attrs);
    } else if rest == "" || rest[0] == '\'' {
      ParseEnd(rest, acc);
      attrs := [];
      assert rest == "" + ("'>" + rest[2..]);
      SpellsNone(rest, "", rest[2..]);
    } else {
      ParseAttr(rest, acc);
      var eq := FirstAssign(rest);
      ReadIsQuoted(rest[eq + 2..]);
      var v := ReadValue(rest[eq + 2..]);
      var more := ParsedIsSpelled(v.rest, Assign(acc, rest[..eq], v.text));
      attrs := [Attr(rest[..eq], v.text)] + more;
      FirstSpelled(rest, eq, v, attrs);
    }
  }

  lemma OneMoreSpace(rest: string, attrs: seq<Attr>)
    requires rest != "" && rest[0] == ' ' && Spells(rest[1..], attrs)
    ensures Spells(rest, attrs)
  {
    hide Spelt, Spells;
    if attrs == [] {
      assert exists gap: string, more: string :: Blank(gap) && rest[1..] == gap + ("'>" + more) by { NoneSpelled(rest[1..]); }
      var gap: string, more: string :| Blank(gap) && rest[1..] == gap + ("'>" + more);
      Wider(rest, gap, "'>" + more);
      SpellsNone(rest, " " + gap, more);
    } else {
      var gap, more := SpelledApart(rest[1..], attrs);
      Wider(rest, gap, Spelt(attrs[0], more));
      SpellsOne(rest, " " + gap, more, attrs);
    }
  }

  lemma Wider(rest: string, gap: string, s: string)
    requires rest != "" && rest[0] == ' ' && rest[1..] == gap + s && Blank(gap)
    ensures Blank(" " + gap) && rest == " " + gap + s
  {
  }

  lemma NoneSpelled(rest: string)
    requires Spells(rest, [])
    ensures exists gap: string, more: string :: Blank(gap) && rest == gap + ("'>" + more)
  {
  }

  lemma SpellsNone(rest: string, gap: string, more: string)
    requires Blank(gap) && rest == gap + ("'>" + more)
    ensures Spells(rest, [])
  {
  }

  lemma SpelledApart(rest: string, attrs: seq<Attr>) returns (gap: string, more: string)
    requires attrs != [] && Spells(rest, attrs)
    ensures PlainName(attrs[0].name) && Blank(gap) && (more == "" || more[0] != '\'') && Spells(more, attrs[1..])
    ensures rest == gap + Spelt(attrs[0], more)
  {
    hide Spelt;
    gap, more :| Blank(gap) && (more == "" || more[0] != '\'') && Spells(more, attrs[1..]) && rest == gap + Spelt(attrs[0], more);
  }

  lemma SpellsOne(rest: string, gap: string, more: string, attrs: seq<Attr>)
    requires attrs != [] && PlainName(attrs[0].name) && Blank(gap) && (more == "" || more[0] != '\'') && Spells(more, attrs[1..])
    requires rest == gap + Spelt(attrs[0], more)
    ensures Spells(rest, attrs)
  {
    hide Spelt;
  }

  lemma FirstSpelled(rest: string, eq: nat, v: Value, attrs: seq<Attr>)
    requires attrs != [] && eq + 1 < |rest| && rest[eq] == '=' && rest[eq + 1] == '\'' && !BadNameIn(rest[..eq])
    requires v.Value? && rest[eq + 2..] == Quoted(v.text) + "'" + v.rest && (v.rest == "" || v.rest[0] != '\'')
    requires attrs[0] == Attr(rest[..eq], v.text) && Spells(v.rest, attrs[1..])
    ensures Spells(rest, attrs)
  {
    assert forall i :: 0 <= i < eq ==> rest[..eq][i] in rest[..eq];
    assert PlainName(rest[..eq]);
    hide Spells, BadNameIn, Quoted, PlainName;
    assert rest == rest[..eq] + "='" + rest[eq + 2..];
    assert rest == Spelt(attrs[0], v.rest);
    hide Spelt;
    assert "" + Spelt(attrs[0], v.rest) == Spelt(attrs[0], v.rest);
    SpellsOne(rest, "", v.rest, attrs);
  }

  /** The parser accepts a text exactly if it spells some attributes, and assigns just those, in order. */
  lemma ParsesIff(tag: string, m: map<string, string>)
    ensures Parse(tag) == Parsed(m) <==>
              tag != "" && tag[0] == '<' && exists attrs :: Spells(tag[1..], attrs) && m == AssignAll(map[], attrs)
  {
    hide ParseRest, Spells, AssignAll;
    ParseStart(tag);
    if tag != "" && tag[0] == '<' {
      if Parse(tag) == Parsed(m) { var attrs := ParsedIsSpelled(tag[1..], map[]); }
      if attrs :| Spells(tag[1..], attrs) && m == AssignAll(map[], attrs) { SpelledParses(tag[1..], attrs, map[]); }
    }
  }
}
