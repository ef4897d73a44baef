/** Parsed JSON values and their canonical text, as `json.dumps` writes it with
    `sort_keys=True`, separators `","` and `":"` and `ensure_ascii=False`. The text
    determines the value: canonical text can stand for the value as a key. */
module Json {
  import opened Sorting

  /** Digits and the other characters of a JSON number (section 6 of RFC 8259). */
  predicate NumberChar(c: char) {
    '0' <= c <= '9' || c == '-' || c == '+' || c == '.' || c == 'e'
  }

  predicate FloatShape(s: string) {
    (forall i :: 0 <= i < |s| ==> NumberChar(s[i])) && ('.' in s || 'e' in s)
  }

  /** The text of a floating-point number; equal texts are taken to be equal numbers. */
  type FloatText = s: string | FloatShape(s) witness "0.0"

  datatype Data =
    | Null
    | Bool(flag: bool)
    | Int(value: int)
    | Float(text: FloatText)
    | Str(chars: string)
    | List(items: seq<Data>)
    | Dict(entries: map<string, Data>)

  // ---------------------------------------------------------------- numbers

  function Digit(n: nat): char
    requires n < 10
  {
    '0' + n as char
  }

  function PrintNat(n: nat): (s: string)
    ensures s != [] && forall i :: 0 <= i < |s| ==> '0' <= s[i] <= '9'
  {
    if n < 10 then [Digit(n)] else PrintNat(n / 10) + [Digit(n % 10)]
  }

  function PrintInt(i: int): (s: string)
    ensures s != [] && forall k :: 0 <= k < |s| ==> NumberChar(s[k]) && s[k] != '.' && s[k] != 'e'
  {
    if i < 0 then "-" + PrintNat(-i) else PrintNat(i)
  }

  lemma {:induction false} PrintNatInjective(m: nat, n: nat)
    requires PrintNat(m) == PrintNat(n)
    ensures m == n
  {
    var s, t := PrintNat(m), PrintNat(n);
    assert s[|s| - 1] == Digit(m % 10) && t[|t| - 1] == Digit(n % 10);
    if m >= 10 && n >= 10 {
      assert PrintNat(m / 10) == s[..|s| - 1] && PrintNat(n / 10) == t[..|t| - 1];
      PrintNatInjective(m / 10, n / 10);
    }
  }

  lemma Sign(i: int)
    ensures PrintInt(i)[0] == '-' <==> i < 0
  {
    if i >= 0 {
      assert PrintNat(i)[0] != '-';
    }
  }

  lemma PrintIntInjective(i: int, j: int)
    requires PrintInt(i) == PrintInt(j)
    ensures i == j
  {
    Sign(i);
    Sign(j);
    if i < 0 && j < 0 {
      assert PrintNat(-i) == PrintInt(i)[1..] && PrintNat(-j) == PrintInt(j)[1..];
      PrintNatInjective(-i, -j);
    } else if i >= 0 && j >= 0 {
      PrintNatInjective(i, j);
    }
  }

  // ---------------------------------------------------------------- strings

  function HexDigit(n: nat): char
    requires n < 16
  {
    if n < 10 then '0' + n as char else 'a' + (n - 10) as char
  }

  /** One character inside a string literal (section 7 of RFC 8259). */
  function Escape(c: char): (s: string)
    ensures s != [] && s[0] != '"'
  {
    var n := c as int;
    if c == '"' then ['\\', '"']
    else if c == '\\' then ['\\', '\\']
    else if n == 8 then ['\\', 'b']
    else if n == 9 then ['\\', 't']
    else if n == 10 then ['\\', 'n']
    else if n == 12 then ['\\', 'f']
    else if n == 13 then ['\\', 'r']
    else if n < 32 then ['\\', 'u', '0', '0', HexDigit(n / 16), HexDigit(n % 16)]
    else [c]
  }

  function Body(s: string): string {
    if s == [] then [] else Escape(s[0]) + Body(s[1..])
  }

  function PrintString(s: string): string {
    "\"" + Body(s) + "\""
  }

  lemma EscapeUnique(c: char, d: char, x: string, y: string)
    requires Escape(c) + x == Escape(d) + y
    ensures c == d && x == y
  {
    var l, r := Escape(c) + x, Escape(d) + y;
    assert l[0] == Escape(c)[0] && r[0] == Escape(d)[0];
    assert |Escape(c)| > 1 ==> l[1] == Escape(c)[1];
    assert |Escape(d)| > 1 ==> r[1] == Escape(d)[1];
    if |Escape(c)| == 6 && |Escape(d)| == 6 {
      assert l[4] == Escape(c)[4] && r[4] == Escape(d)[4];
      assert l[5] == Escape(c)[5] && r[5] == Escape(d)[5];
    }
    assert c == d;
    assert x == l[|Escape(c)|..] && y == r[|Escape(c)|..];
  }

  lemma BodyLead(a: string, x: string)
    ensures var l := Body(a) + "\"" + x;
      && l[0] == (if a == [] then '"' else Escape(a[0])[0])
      && (a == [] ==> x == l[1..])
  {
  }

  /** A string literal ends where its text says, and the text determines the string. */
  lemma {:induction false} BodyUnique(a: string, b: string, x: string, y: string)
    requires Body(a) + "\"" + x == Body(b) + "\"" + y
    ensures a == b && x == y
  {
    var l, r := Body(a) + "\"" + x, Body(b) + "\"" + y;
    BodyLead(a, x);
    BodyLead(b, y);
    if a != [] && b != [] {
      var p, q := Body(a[1..]) + "\"" + x, Body(b[1..]) + "\"" + y;
      assert l == Escape(a[0]) + p && r == Escape(b[0]) + q;
      EscapeUnique(a[0], b[0], p, q);
      BodyUnique(a[1..], b[1..], x, y);
    }
  }

  lemma StringUnique(a: string, b: string, x: string, y: string)
    requires PrintString(a) + x == PrintString(b) + y
    ensures a == b && x == y
  {
    var l, r := PrintString(a) + x, PrintString(b) + y;
    assert l[1..] == Body(a) + "\"" + x && r[1..] == Body(b) + "\"" + y;
    BodyUnique(a, b, x, y);
  }

  // ---------------------------------------------------------------- values

  function Print(d: Data): string
    decreases d, 1, 0
  {
    match d
    case Null => "null"
    case Bool(b) => if b then "true" else "false"
    case Int(i) => PrintInt(i)
    case Float(t) => t
    case Str(s) => PrintString(s)
    case List(items) => "[" + if items == [] then "]" else Print(items[0]) + MoreItems(d, 1)
    case Dict(entries) =>
      var keys := SortedKeys(entries.Keys);
      "{" + if keys == [] then "}" else PrintEntry(d, keys[0]) + MoreEntries(d, keys[1..])
  }

  /** The items from `i` on, each after a comma, and the closing bracket. */
  function MoreItems(d: Data, i: nat): string
    requires d.List? && i <= |d.items|
    decreases d, 0, |d.items| - i
  {
    if i == |d.items| then "]" else "," + Print(d.items[i]) + MoreItems(d, i + 1)
  }

  function PrintEntry(d: Data, k: string): string
    requires d.Dict? && k in d.entries
    decreases d, 0, 0
  {
    PrintString(k) + ":" + Print(d.entries[k])
  }

  function MoreEntries(d: Data, keys: seq<string>): string
    requires d.Dict? && forall k :: k in keys ==> k in d.entries
    decreases d, 0, |keys| + 1
  {
    if keys == [] then "}" else "," + PrintEntry(d, keys[0]) + MoreEntries(d, keys[1..])
  }

  // ---------------------------------------------------------------- the text determines the value

  /** `x` does not continue a number. */
  predicate Stops(x: string) {
    x == [] || !NumberChar(x[0])
  }

  lemma NumberLead(a: string, x: string)
    ensures a != [] ==> (a + x)[0] == a[0]
    ensures a == [] ==> a + x == x
  {
  }

  lemma {:induction false} NumberUnique(a: string, b: string, x: string, y: string)
    requires forall i :: 0 <= i < |a| ==> NumberChar(a[i])
    requires forall i :: 0 <= i < |b| ==> NumberChar(b[i])
    requires Stops(x) && Stops(y) && a + x == b + y
    ensures a == b && x == y
  {
    var l, r := a + x, b + y;
    NumberLead(a, x);
    NumberLead(b, y);
    if a != [] && b != [] {
      assert l[0] == a[0] && r[0] == b[0];
      assert l[1..] == a[1..] + x && r[1..] == b[1..] + y;
      NumberUnique(a[1..], b[1..], x, y);
    }
  }

  /** The first character tells the kinds of value apart. */
  function Lead(d: Data): char {
    match d
    case Null => 'n'
    case Bool(b) => if b then 't' else 'f'
    case Int(_) => '0'
    case Float(_) => '0'
    case Str(_) => '"'
    case List(_) => '['
    case Dict(_) => '{'
  }

  lemma PrintLead(d: Data)
    ensures Print(d) != []
    ensures if d.Int? || d.Float? then NumberChar(Print(d)[0]) else Print(d)[0] == Lead(d)
  {
  }

  /** Two texts that agree, agree after their first characters. */
  lemma Peel(c: char, d: char, p: string, q: string)
    requires [c] + p == [d] + q
    ensures c == d && p == q
  {
    assert ([c] + p)[0] == c && ([d] + q)[0] == d;
    assert ([c] + p)[1..] == p && ([d] + q)[1..] == q;
  }

  lemma Regroup(a: string, b: string, c: string)
    ensures a + b + c == a + (b + c)
  {
  }

  /** What follows item `i`, with the rest of the text. */
  lemma MoreItemsText(d: Data, i: nat, x: string)
    requires d.List? && i <= |d.items|
    ensures MoreItems(d, i) + x ==
      if i == |d.items| then [']'] + x else [','] + (Print(d.items[i]) + (MoreItems(d, i + 1) + x))
    ensures Stops(MoreItems(d, i) + x)
  {
    if i < |d.items| {
      Regroup("," + Print(d.items[i]), MoreItems(d, i + 1), x);
      Regroup(",", Print(d.items[i]), MoreItems(d, i + 1) + x);
    }
  }

  lemma MoreEntriesText(d: Data, keys: seq<string>, x: string)
    requires d.Dict? && forall k :: k in keys ==> k in d.entries
    ensures MoreEntries(d, keys) + x ==
      if keys == [] then ['}'] + x else [','] + (PrintEntry(d, keys[0]) + (MoreEntries(d, keys[1..]) + x))
    ensures Stops(MoreEntries(d, keys) + x)
  {
    hide PrintEntry;
    if keys != [] {
      Regroup("," + PrintEntry(d, keys[0]), MoreEntries(d, keys[1..]), x);
      Regroup(",", PrintEntry(d, keys[0]), MoreEntries(d, keys[1..]) + x);
    }
  }

  lemma {:induction false} ItemsUnique(a: Data, i: nat, b: Data, j: nat, x: string, y: string)
    requires a.List? && b.List? && i <= |a.items| && j <= |b.items|
    requires MoreItems(a, i) + x == MoreItems(b, j) + y
    ensures a.items[i..] == b.items[j..] && x == y
    decreases a, 0, |a.items| - i
  {
    hide MoreItems, Print;
    MoreItemsText(a, i, x);
    MoreItemsText(b, j, y);
    var p := if i == |a.items| then x else Print(a.items[i]) + (MoreItems(a, i + 1) + x);
    var q := if j == |b.items| then y else Print(b.items[j]) + (MoreItems(b, j + 1) + y);
    Peel(if i == |a.items| then ']' else ',', if j == |b.items| then ']' else ',', p, q);
    if i < |a.items| {
      MoreItemsText(a, i + 1, x);
      MoreItemsText(b, j + 1, y);
      PrintUnique(a.items[i], b.items[j], MoreItems(a, i + 1) + x, MoreItems(b, j + 1) + y);
      ItemsUnique(a, i + 1, b, j + 1, x, y);
      assert a.items[i..] == [a.items[i]] + a.items[i + 1..];
      assert b.items[j..] == [b.items[j]] + b.items[j + 1..];
    }
  }

  lemma {:induction false} EntryUnique(a: Data, k: string, b: Data, j: string, x: string, y: string)
    requires a.Dict? && b.Dict? && k in a.entries && j in b.entries
    requires Stops(x) && Stops(y) && PrintEntry(a, k) + x == PrintEntry(b, j) + y
    ensures k == j && a.entries[k] == b.entries[j] && x == y
    decreases a, 0, 0
  {
    hide Print, PrintString, Stops;
    var p, q := Print(a.entries[k]), Print(b.entries[j]);
    Regroup(PrintString(k) + ":", p, x);
    Regroup(PrintString(k), ":", p + x);
    Regroup(PrintString(j) + ":", q, y);
    Regroup(PrintString(j), ":", q + y);
    StringUnique(k, j, ":" + (p + x), ":" + (q + y));
    Peel(':', ':', p + x, q + y);
    PrintUnique(a.entries[k], b.entries[j], x, y);
  }

  lemma {:induction false} EntriesUnique(a: Data, ks: seq<string>, b: Data, js: seq<string>, x: string, y: string)
    requires a.Dict? && b.Dict? && (forall k :: k in ks ==> k in a.entries) && forall j :: j in js ==> j in b.entries
    requires MoreEntries(a, ks) + x == MoreEntries(b, js) + y
    ensures ks == js && x == y && forall k :: k in ks ==> k in b.entries && a.entries[k] == b.entries[k]
    decreases a, 0, |ks| + 1
  {
    hide MoreEntries, PrintEntry, Print;
    MoreEntriesText(a, ks, x);
    MoreEntriesText(b, js, y);
    var p := if ks == [] then x else PrintEntry(a, ks[0]) + (MoreEntries(a, ks[1..]) + x);
    var q := if js == [] then y else PrintEntry(b, js[0]) + (MoreEntries(b, js[1..]) + y);
    Peel(if ks == [] then '}' else ',', if js == [] then '}' else ',', p, q);
    if ks != [] {
      MoreEntriesText(a, ks[1..], x);
      MoreEntriesText(b, js[1..], y);
      EntryUnique(a, ks[0], b, js[0], MoreEntries(a, ks[1..]) + x, MoreEntries(b, js[1..]) + y);
      EntriesUnique(a, ks[1..], b, js[1..], x, y);
      assert ks == [ks[0]] + ks[1..] && js == [js[0]] + js[1..];
    }
  }

  /** A list and a dictionary without their opening bracket. */
  lemma ListText(d: Data, x: string)
    requires d.List?
    ensures Print(d) + x ==
      ['['] + if d.items == [] then [']'] + x else Print(d.items[0]) + (MoreItems(d, 1) + x)
  {
    if d.items != [] {
      Regroup("[", Print(d.items[0]) + MoreItems(d, 1), x);
      Regroup(Print(d.items[0]), MoreItems(d, 1), x);
    }
  }

  lemma DictText(d: Data, x: string)
    requires d.Dict?
    ensures Print(d) + x == var keys := SortedKeys(d.entries.Keys);
      ['{'] + if keys == [] then ['}'] + x else PrintEntry(d, keys[0]) + (MoreEntries(d, keys[1..]) + x)
  {
    hide PrintEntry;
    var keys := SortedKeys(d.entries.Keys);
    if keys != [] {
      Regroup("{", PrintEntry(d, keys[0]) + MoreEntries(d, keys[1..]), x);
      Regroup(PrintEntry(d, keys[0]), MoreEntries(d, keys[1..]), x);
    }
  }

  /** No value starts with a closing bracket, and an entry starts with a quote. */
  lemma NotClosing(d: Data, x: string)
    ensures Print(d) + x != [] && (Print(d) + x)[0] != ']'
  {
    PrintLead(d);
    assert (Print(d) + x)[0] == Print(d)[0];
  }

  lemma EntryNotClosing(d: Data, k: string, x: string)
    requires d.Dict? && k in d.entries
    ensures PrintEntry(d, k) + x != [] && (PrintEntry(d, k) + x)[0] == '"'
  {
  }

  lemma {:induction false} ListUnique(a: Data, b: Data, x: string, y: string)
    requires a.List? && b.List? && Print(a) + x == Print(b) + y
    ensures a == b && x == y
    decreases a, 0, |a.items| + 1
  {
    hide Print, MoreItems;
    ListText(a, x);
    ListText(b, y);
    var p := if a.items == [] then [']'] + x else Print(a.items[0]) + (MoreItems(a, 1) + x);
    var q := if b.items == [] then [']'] + y else Print(b.items[0]) + (MoreItems(b, 1) + y);
    Peel('[', '[', p, q);
    if a.items != [] { NotClosing(a.items[0], MoreItems(a, 1) + x); }
    if b.items != [] { NotClosing(b.items[0], MoreItems(b, 1) + y); }
    if a.items == [] {
      Peel(']', ']', x, y);
    } else {
      MoreItemsText(a, 1, x);
      MoreItemsText(b, 1, y);
      PrintUnique(a.items[0], b.items[0], MoreItems(a, 1) + x, MoreItems(b, 1) + y);
      ItemsUnique(a, 1, b, 1, x, y);
      assert a.items == [a.items[0]] + a.items[1..] && b.items == [b.items[0]] + b.items[1..];
    }
  }

  /** The sorted keys with their values are the dictionary. */
  lemma SameEntries(a: Data, b: Data)
    requires a.Dict? && b.Dict? && SortedKeys(a.entries.Keys) == SortedKeys(b.entries.Keys)
    requires forall k :: k in SortedKeys(a.entries.Keys) ==> k in b.entries && a.entries[k] == b.entries[k]
    ensures a == b
  {
    hide SortedKeys, Before;
    assert forall k :: k in a.entries <==> k in SortedKeys(a.entries.Keys);
    assert forall k :: k in b.entries <==> k in SortedKeys(b.entries.Keys);
    assert a.entries == b.entries;
  }

  lemma {:induction false} DictUnique(a: Data, b: Data, x: string, y: string)
    requires a.Dict? && b.Dict? && Print(a) + x == Print(b) + y
    ensures a == b && x == y
    decreases a, 0, |SortedKeys(a.entries.Keys)| + 2
  {
    hide Print, MoreEntries, PrintEntry, SortedKeys, Before;
    var ks, js := SortedKeys(a.entries.Keys), SortedKeys(b.entries.Keys);
    DictText(a, x);
    DictText(b, y);
    var p := if ks == [] then ['}'] + x else PrintEntry(a, ks[0]) + (MoreEntries(a, ks[1..]) + x);
    var q := if js == [] then ['}'] + y else PrintEntry(b, js[0]) + (MoreEntries(b, js[1..]) + y);
    Peel('{', '{', p, q);
    if ks != [] { EntryNotClosing(a, ks[0], MoreEntries(a, ks[1..]) + x); }
    if js != [] { EntryNotClosing(b, js[0], MoreEntries(b, js[1..]) + y); }
    if ks == [] {
      Peel('}', '}', x, y);
    } else {
      MoreEntriesText(a, ks[1..], x);
      MoreEntriesText(b, js[1..], y);
      EntryUnique(a, ks[0], b, js[0], MoreEntries(a, ks[1..]) + x, MoreEntries(b, js[1..]) + y);
      EntriesUnique(a, ks[1..], b, js[1..], x, y);
      assert ks == [ks[0]] + ks[1..] && js == [js[0]] + js[1..];
    }
    SameEntries(a, b);
  }

  /** Canonical text followed by anything that does not continue a number can be read in one way only. */
  lemma {:induction false} PrintUnique(a: Data, b: Data, x: string, y: string)
    requires Print(a) + x == Print(b) + y && Stops(x) && Stops(y)
    ensures a == b && x == y
    decreases a, 1, 0
  {
    PrintLead(a);
    PrintLead(b);
    assert (Print(a) + x)[0] == Print(a)[0] && (Print(b) + y)[0] == Print(b)[0];
    match a
    case Null => assert b.Null? && (Print(a) + x)[4..] == x && (Print(b) + y)[4..] == y;
    case Bool(f) =>
      var n := if f then 4 else 5;
      assert b == a && (Print(a) + x)[n..] == x && (Print(b) + y)[n..] == y;
    case Int(_) => ScalarUnique(a, b, x, y);
    case Float(_) => ScalarUnique(a, b, x, y);
    case Str(s) => StringUnique(s, b.chars, x, y);
    case List(_) => ListUnique(a, b, x, y);
    case Dict(_) => DictUnique(a, b, x, y);
  }

  lemma ScalarUnique(a: Data, b: Data, x: string, y: string)
    requires (a.Int? || a.Float?) && (b.Int? || b.Float?)
    requires Print(a) + x == Print(b) + y && Stops(x) && Stops(y)
    ensures a == b && x == y
  {
    NumberUnique(Print(a), Print(b), x, y);
    if a.Int? && b.Int? {
      PrintIntInjective(a.value, b.value);
    }
  }

  /** Equal canonical texts, equal values. */
  lemma PrintInjective(a: Data, b: Data)
    requires Print(a) == Print(b)
    ensures a == b
  {
    assert Print(a) + "" == Print(a) && Print(b) + "" == Print(b);
    PrintUnique(a, b, "", "");
  }
}
