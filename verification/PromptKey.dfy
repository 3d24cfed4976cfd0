/** The text key of the prompt prefix cache (src/prompt-builder.h): three labelled lists of decimal
    integers. Different lists never share a key. */
module PromptKey {

  function Digit(d: nat): char
    requires d < 10
  {
    "0123456789"[d]
  }

  function DigitValue(c: char): nat {
    if c == '1' then 1 else if c == '2' then 2 else if c == '3' then 3 else if c == '4' then 4
    else if c == '5' then 5 else if c == '6' then 6 else if c == '7' then 7 else if c == '8' then 8
    else if c == '9' then 9 else 0
  }

  lemma DigitRead(d: nat)
    requires d < 10
    ensures DigitValue(Digit(d)) == d && Digit(d) !in "-,;"
  {
  }

  /** std::to_string of a non-negative number. */
  function Decimal(n: nat): (s: string)
    ensures s != []
  {
    (if n < 10 then [] else Decimal(n / 10)) + [Digit(n % 10)]
  }

  function ToString(v: int): (s: string)
    ensures s != []
  {
    if v < 0 then "-" + Decimal(-v) else Decimal(v)
  }

  function Value(s: string): nat {
    if s == [] then 0 else 10 * Value(s[..|s| - 1]) + DigitValue(s[|s| - 1])
  }

  lemma {:induction false} DecimalRead(n: nat)
    ensures Value(Decimal(n)) == n && Plain(Decimal(n))
  {
    hide DigitValue, Digit, Decimal, Value;
    DecimalStep(n);
    DigitRead(n % 10);
    if n >= 10 {
      DecimalRead(n / 10);
      ValueSnoc(Decimal(n / 10), Digit(n % 10));
    } else {
      ValueSnoc([], Digit(n));
      assert [] + [Digit(n)] == [Digit(n)];
      NoValue([]);
    }
  }

  /** No sign and no separators. */
  predicate Plain(s: string) { forall i | 0 <= i < |s| :: s[i] !in "-,;" }

  lemma DecimalStep(n: nat)
    ensures Decimal(n) == if n < 10 then [Digit(n)] else Decimal(n / 10) + [Digit(n % 10)]
  {
    if n < 10 { assert [] + [Digit(n % 10)] == [Digit(n)]; }
  }

  lemma NoValue(s: string)
    ensures s == [] ==> Value(s) == 0
  {
  }

  lemma ValueSnoc(s: string, c: char)
    ensures Value(s + [c]) == 10 * Value(s) + DigitValue(c)
  {
    assert (s + [c])[..|s|] == s;
  }

  lemma ToStringInjective(v: int, w: int)
    requires ToString(v) == ToString(w)
    ensures v == w
  {
    hide Decimal, Value;
    var a, b := if v < 0 then -v else v, if w < 0 then -w else w;
    DecimalRead(a);
    DecimalRead(b);
    assert Decimal(a)[0] != '-' && Decimal(b)[0] != '-';
    if v < 0 && w < 0 { assert Decimal(a) == ToString(v)[1..] == ToString(w)[1..] == Decimal(b); }
  }

  lemma ToStringPlain(v: int)
    ensures forall i | 0 <= i < |ToString(v)| :: ToString(v)[i] != ',' && ToString(v)[i] != ';'
  {
    hide Decimal;
    DecimalRead(if v < 0 then -v else v);
  }

  /** Every value followed by a comma. */
  function Ints(values: seq<int>): string {
    if values == [] then [] else ToString(values[0]) + ([','] + Ints(values[1..]))
  }

  function Section(name: string, values: seq<int>): string {
    name + ['='] + Ints(values) + [';']
  }

  function FirstComma(s: string): nat {
    if s == [] || s[0] == ',' then 0 else 1 + FirstComma(s[1..])
  }

  lemma {:induction false} FirstCommaAfter(a: string, x: string)
    requires forall i | 0 <= i < |a| :: a[i] != ','
    ensures FirstComma(a + ([','] + x)) == |a|
  {
    if a == [] {
      assert a + ([','] + x) == [','] + x;
    } else {
      assert (a + ([','] + x))[1..] == a[1..] + ([','] + x);
      FirstCommaAfter(a[1..], x);
    }
  }

  /** Text up to the first comma is determined. */
  lemma FirstToken(a: string, b: string, x: string, y: string)
    requires forall i | 0 <= i < |a| :: a[i] != ','
    requires forall i | 0 <= i < |b| :: b[i] != ','
    requires a + ([','] + x) == b + ([','] + y)
    ensures a == b && x == y
  {
    FirstCommaAfter(a, x);
    FirstCommaAfter(b, y);
    var s := a + ([','] + x);
    assert a == s[..|a|] && b == s[..|b|];
    assert x == s[|a| + 1..] && y == s[|b| + 1..];
  }

  lemma Regroup(a: string, b: string, c: string)
    ensures a + (b + c) == a + b + c
  {
  }

  lemma IntsStep(values: seq<int>, x: string)
    ensures Ints(values) + ([';'] + x) == if values == [] then [';'] + x
            else ToString(values[0]) + ([','] + (Ints(values[1..]) + ([';'] + x)))
  {
    if values == [] {
      assert Ints(values) + ([';'] + x) == [';'] + x;
    } else {
      Regroup([','], Ints(values[1..]), [';'] + x);
      Regroup(ToString(values[0]), [','] + Ints(values[1..]), [';'] + x);
    }
  }

  /** A list and what follows its semicolon are determined by the text. */
  lemma {:induction false} IntsDetermined(a: seq<int>, b: seq<int>, x: string, y: string)
    requires Ints(a) + ([';'] + x) == Ints(b) + ([';'] + y)
    ensures a == b && x == y
  {
    hide ToString, Ints;
    IntsStep(a, x);
    IntsStep(b, y);
    StartsPlain(a);
    StartsPlain(b);
    if a == [] {
      assert x == ([';'] + x)[1..] && y == ([';'] + y)[1..];
    } else {
      ToStringPlain(a[0]);
      ToStringPlain(b[0]);
      FirstToken(ToString(a[0]), ToString(b[0]), Ints(a[1..]) + ([';'] + x), Ints(b[1..]) + ([';'] + y));
      ToStringInjective(a[0], b[0]);
      IntsDetermined(a[1..], b[1..], x, y);
    }
  }

  lemma StartsPlain(values: seq<int>)
    ensures values != [] ==> forall t: string :: (ToString(values[0]) + t)[0] != ';'
  {
    if values != [] { ToStringPlain(values[0]); }
  }

  /** prompt_prefix_cache_key. */
  function Key(instruct: seq<int>, role: seq<int>, codec: seq<int>): string {
    Section("instruct", instruct) + Section("role", role) + Section("codec", codec)
  }

  /** Equal keys mean equal id lists. */
  lemma KeyInjective(i: seq<int>, r: seq<int>, c: seq<int>, j: seq<int>, s: seq<int>, d: seq<int>)
    requires Key(i, r, c) == Key(j, s, d)
    ensures i == j && r == s && c == d
  {
    hide Section;
    Regroup(Section("instruct", i), Section("role", r), Section("codec", c));
    Regroup(Section("instruct", j), Section("role", s), Section("codec", d));
    SectionDetermined("instruct", i, j, Section("role", r) + Section("codec", c), Section("role", s) + Section("codec", d));
    SectionDetermined("role", r, s, Section("codec", c), Section("codec", d));
    assert Section("codec", c) + [] == Section("codec", c) && Section("codec", d) + [] == Section("codec", d);
    SectionDetermined("codec", c, d, [], []);
  }

  lemma SectionDetermined(name: string, a: seq<int>, b: seq<int>, x: string, y: string)
    requires Section(name, a) + x == Section(name, b) + y
    ensures a == b && x == y
  {
    hide Ints;
    AfterName(name, a, x);
    AfterName(name, b, y);
    IntsDetermined(a, b, x, y);
  }

  lemma AfterName(name: string, a: seq<int>, x: string)
    ensures |Section(name, a) + x| > |name|
    ensures (Section(name, a) + x)[|name| + 1..] == Ints(a) + ([';'] + x)
  {
    hide Ints;
    Regroup(Ints(a), [';'], x);
    Regroup(name + ['='], Ints(a), [';']);
    Regroup(name + ['='], Ints(a) + [';'], x);
  }

  /** append_ints_to_key. */
  method AppendInts(key: string, name: string, values: seq<int>) returns (out: string)
    ensures out == key + Section(name, values)
  {
    hide Ints, ToString;
    out := key + name;
    out := out + ['='];
    ghost var head := out;
    NoInts();
    for i := 0 to |values|
      invariant out == head + Ints(values[..i])
    {
      IntsSnoc(values[..i], values[i]);
      assert values[..i] + [values[i]] == values[..i + 1];
      Regroup(head, Ints(values[..i]), ToString(values[i]));
      Regroup(head, Ints(values[..i]) + ToString(values[i]), [',']);
      out := out + ToString(values[i]);
      out := out + [','];
    }
    assert values[..|values|] == values;
    Regroup(head, Ints(values), [';']);
    out := out + [';'];
    Whole(key, name, Ints(values));
  }

  lemma Whole(key: string, name: string, ints: string)
    ensures key + name + ['='] + ints + [';'] == key + (name + ['='] + ints + [';'])
  {
  }

  lemma NoInts()
    ensures forall s: string :: s + Ints([]) == s
  {
  }

  lemma {:induction false} IntsSnoc(values: seq<int>, v: int)
    ensures Ints(values + [v]) == Ints(values) + ToString(v) + [',']
  {
    hide ToString;
    if values == [] {
      assert [v][1..] == [] && values + [v] == [v];
      assert Ints([v]) == ToString(v) + ([','] + []);
    } else {
      IntsSnoc(values[1..], v);
      assert (values + [v])[1..] == values[1..] + [v];
      var head, rest := ToString(values[0]), Ints(values[1..]);
      Regroup([','], rest + ToString(v), [',']);
      Regroup([','], rest, ToString(v));
      Regroup(head, [','] + rest, ToString(v));
      Regroup(head, [','] + rest + ToString(v), [',']);
    }
  }

  method BuildKey(instruct: seq<int>, ids: seq<int>, codec: seq<int>) returns (key: string)
    requires |ids| >= 3
    ensures key == Key(instruct, ids[..3], codec)
  {
    hide Section;
    key := AppendInts([], "instruct", instruct);
    key := AppendInts(key, "role", ids[..3]);
    key := AppendInts(key, "codec", codec);
  }
}
