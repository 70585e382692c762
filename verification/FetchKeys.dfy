/**
 The key that decides when two queries are one fetch: operator-supplied strings are quoted with
 Go's %q verb and joined, and two queries must share a key exactly when they read the same rows.
 */
module FetchKeys {
  import Sorting

  // ----- reading text from the front -------------------------------------------------------------

  lemma Assoc(a: string, b: string, c: string)
    ensures (a + b) + c == a + (b + c)
  {}

  lemma CancelPrefix(a: string, x: string, y: string)
    requires a + x == a + y
    ensures x == y
  {
    assert (a + x)[|a|..] == x && (a + y)[|a|..] == y;
  }

  // ----- Go's quoted form of a string ----------------------------------------------------------

  /** unicode.IsPrint beyond ASCII: a table whose contents no property here depends on. */
  const PrintableBeyondAscii: char -> bool

  predicate Printable(c: char) {
    if c as int < 128 then 32 <= c as int < 127 else PrintableBeyondAscii(c)
  }

  function HexDigit(n: nat): char
    requires n < 16
  {
    "0123456789abcdef"[n]
  }

  function Pow(base: nat, width: nat): nat {
    if width == 0 then 1 else base * Pow(base, width - 1)
  }

  function Hex(n: nat, width: nat): (r: string)
    ensures |r| == width
  {
    if width == 0 then "" else Hex(n / 16, width - 1) + [HexDigit(n % 16)]
  }

  lemma {:induction false} HexInjective(n: nat, m: nat, width: nat)
    requires n < Pow(16, width) && m < Pow(16, width)
    requires Hex(n, width) == Hex(m, width)
    ensures n == m
  {
    if width > 0 {
      var k := width - 1;
      assert Hex(n, width)[..k] == Hex(n / 16, k) && Hex(m, width)[..k] == Hex(m / 16, k);
      assert Hex(n, width)[k] == HexDigit(n % 16) && Hex(m, width)[k] == HexDigit(m % 16);
      HexInjective(n / 16, m / 16, k);
    }
  }

  /** One rune inside a double-quoted Go string. */
  function Escape(c: char): (r: string)
    ensures r != [] && r[0] != '\"'
  {
    if c == '\"' || c == '\\' then ['\\', c]
    else if Printable(c) then [c]
    else if c as int == 7 then "\\a"
    else if c as int == 8 then "\\b"
    else if c as int == 12 then "\\f"
    else if c == '\n' then "\\n"
    else if c == '\r' then "\\r"
    else if c == '\t' then "\\t"
    else if c as int == 11 then "\\v"
    else if c as int < 32 || c as int == 127 then "\\x" + Hex(c as int, 2)
    else if c as int < 0x10000 then "\\u" + Hex(c as int, 4)
    else "\\U" + Hex(c as int, 8)
  }

  /** How long the escape at the head of a text is, read off its first two characters. */
  function EscapeLength(text: string): nat {
    if |text| < 2 || text[0] != '\\' then 1
    else if text[1] == 'x' then 4
    else if text[1] == 'u' then 6
    else if text[1] == 'U' then 10
    else 2
  }

  lemma EscapeLengthRead(c: char, rest: string)
    ensures EscapeLength(Escape(c) + rest) == |Escape(c)|
  {}

  lemma EscapeInjective(a: char, b: char)
    requires Escape(a) == Escape(b)
    ensures a == b
  {
    assert Pow(16, 2) == 256 by { assert Pow(16, 0) == 1; assert Pow(16, 1) == 16; }
    assert Pow(16, 4) == 0x1_0000 by { assert Pow(16, 3) == 4096; }
    assert Pow(16, 8) == 0x1_0000_0000 by { assert Pow(16, 6) == 0x100_0000; }
    var n := |Escape(a)|;
    if n > 2 {
      var w := n - 2;
      assert Escape(a)[2..] == Hex(a as int, w) && Escape(b)[2..] == Hex(b as int, w);
      HexInjective(a as int, b as int, w);
    }
  }

  lemma EscapeCancels(a: char, b: char, x: string, y: string)
    requires Escape(a) + x == Escape(b) + y
    ensures a == b && x == y
  {
    EscapeLengthRead(a, x);
    EscapeLengthRead(b, y);
    var n := |Escape(a)|;
    assert (Escape(a) + x)[..n] == Escape(a) && (Escape(b) + y)[..n] == Escape(b);
    assert (Escape(a) + x)[n..] == x && (Escape(b) + y)[n..] == y;
    EscapeInjective(a, b);
  }

  function Escaped(s: string): string {
    if s == "" then "" else Escape(s[0]) + Escaped(s[1..])
  }

  function Quote(s: string): string {
    "\"" + (Escaped(s) + "\"")
  }

  lemma EscapedHead(s: string, x: string)
    ensures (Escaped(s) + ("\"" + x))[0] == '\"' <==> s == ""
  {}

  lemma {:induction false} EscapedCancels(s: string, t: string, x: string, y: string)
    requires Escaped(s) + ("\"" + x) == Escaped(t) + ("\"" + y)
    ensures s == t && x == y
  {
    EscapedHead(s, x);
    EscapedHead(t, y);
    if s == "" {
      assert "" + ("\"" + x) == "\"" + x && "" + ("\"" + y) == "\"" + y;
      CancelPrefix("\"", x, y);
    } else {
      Assoc(Escape(s[0]), Escaped(s[1..]), "\"" + x);
      Assoc(Escape(t[0]), Escaped(t[1..]), "\"" + y);
      EscapeCancels(s[0], t[0], Escaped(s[1..]) + ("\"" + x), Escaped(t[1..]) + ("\"" + y));
      EscapedCancels(s[1..], t[1..], x, y);
      assert s == [s[0]] + s[1..] && t == [t[0]] + t[1..];
    }
  }

  lemma QuoteThen(s: string, x: string)
    ensures Quote(s) + x == "\"" + (Escaped(s) + ("\"" + x))
  {
    Assoc("\"", Escaped(s) + "\"", x);
    Assoc(Escaped(s), "\"", x);
  }

  /** A quoted string can be read back off the front of any text, whatever follows it. */
  lemma QuoteCancels(s: string, t: string, x: string, y: string)
    requires Quote(s) + x == Quote(t) + y
    ensures s == t && x == y
  {
    QuoteThen(s, x);
    QuoteThen(t, y);
    CancelPrefix("\"", Escaped(s) + ("\"" + x), Escaped(t) + ("\"" + y));
    EscapedCancels(s, t, x, y);
  }

  const NUL: char := '\0'

  lemma {:induction false} HexHasNoNul(n: nat, width: nat)
    ensures NUL !in Hex(n, width)
  {
    if width > 0 {
      HexHasNoNul(n / 16, width - 1);
    }
  }

  lemma {:induction false} EscapedHasNoNul(s: string)
    ensures NUL !in Escaped(s)
  {
    if s != "" {
      HexHasNoNul(s[0] as int, 2);
      HexHasNoNul(s[0] as int, 4);
      HexHasNoNul(s[0] as int, 8);
      assert NUL !in Escape(s[0]);
      EscapedHasNoNul(s[1..]);
    }
  }

  // ----- ordering strings ----------------------------------------------------------------------

  predicate Leq(a: string, b: string) {
    a == "" || (b != "" && (a[0] < b[0] || (a[0] == b[0] && Leq(a[1..], b[1..]))))
  }

  lemma {:induction false} LeqTotal(a: string, b: string)
    ensures Leq(a, b) || Leq(b, a)
    ensures Leq(a, b) && Leq(b, a) ==> a == b
  {
    if a != "" && b != "" && a[0] == b[0] {
      LeqTotal(a[1..], b[1..]);
      assert a == [a[0]] + a[1..] && b == [b[0]] + b[1..];
    }
  }

  lemma {:induction false} LeqTransitive(a: string, b: string, c: string)
    requires Leq(a, b) && Leq(b, c)
    ensures Leq(a, c)
  {
    if a != "" && a[0] == b[0] && b[0] == c[0] {
      LeqTransitive(a[1..], b[1..], c[1..]);
    }
  }

  lemma LeqIsTotalOrder()
    ensures Sorting.TotalOrder(Leq)
  {
    forall a, b ensures (Leq(a, b) || Leq(b, a)) && (Leq(a, b) && Leq(b, a) ==> a == b) {
      LeqTotal(a, b);
    }
    forall a, b, c | Leq(a, b) && Leq(b, c) ensures Leq(a, c) {
      LeqTransitive(a, b, c);
    }
  }

  ghost function Sorted(xs: seq<string>): seq<string> {
    LeqIsTotalOrder();
    Sorting.SortBy(Leq, xs)
  }

  lemma SortedForgetsOrder(xs: seq<string>, ys: seq<string>)
    ensures Sorted(xs) == Sorted(ys) <==> multiset(xs) == multiset(ys)
  {
    LeqIsTotalOrder();
    Sorting.SortForgetsOrder(Leq, xs, ys);
  }

  /** Some listing of a set; which one is immaterial, since it is only ever sorted. */
  ghost function Listing(s: set<string>): (r: seq<string>)
    ensures multiset(r) == multiset(s)
  {
    if s == {} then []
    else
      var x :| x in s;
      assert s == (s - {x}) + {x};
      [x] + Listing(s - {x})
  }

  ghost function SortedKeys(labels: map<string, string>): (r: seq<string>)
    ensures forall k :: k in r <==> k in labels
  {
    var r := Sorted(Listing(labels.Keys));
    LeqIsTotalOrder();
    assert forall k :: k in r <==> k in multiset(r);
    r
  }

  // ----- a scope and its rendering -------------------------------------------------------------

  datatype Scope = Scope(
    deploymentID: string, integrationID: string, appName: string, appVersion: string,
    levels: seq<string>, search: string,
    pods: seq<string>, labels: map<string, string>, across: string)

  /** What is left of a scope once the order of its lists is forgotten. */
  datatype Rows = Rows(
    deploymentID: string, integrationID: string, appName: string, appVersion: string,
    levels: multiset<string>, search: string,
    pods: multiset<string>, labels: map<string, string>, across: string)

  function RowsOf(s: Scope): Rows {
    Rows(s.deploymentID, s.integrationID, s.appName, s.appVersion, multiset(s.levels), s.search,
         multiset(s.pods), s.labels, s.across)
  }

  /** The %q rendering of a string slice after its opening bracket. */
  function ListTail(xs: seq<string>): string
    decreases |xs|, 0
  {
    if xs == [] then "]" else Quote(xs[0]) + ListMore(xs[1..])
  }

  function ListMore(xs: seq<string>): string
    decreases |xs|, 1
  {
    if xs == [] then "]" else " " + ListTail(xs)
  }

  function QuoteList(xs: seq<string>): string {
    "[" + ListTail(xs)
  }

  lemma ListTailHead(xs: seq<string>, x: string)
    ensures (ListTail(xs) + x)[0] == ']' <==> xs == []
  {}

  lemma {:induction false} ListTailCancels(xs: seq<string>, ys: seq<string>, x: string, y: string)
    requires ListTail(xs) + x == ListTail(ys) + y
    ensures xs == ys && x == y
    decreases |xs|, 1
  {
    ListTailHead(xs, x);
    ListTailHead(ys, y);
    if xs == [] {
      CancelPrefix("]", x, y);
    } else {
      Assoc(Quote(xs[0]), ListMore(xs[1..]), x);
      Assoc(Quote(ys[0]), ListMore(ys[1..]), y);
      QuoteCancels(xs[0], ys[0], ListMore(xs[1..]) + x, ListMore(ys[1..]) + y);
      ListMoreCancels(xs[1..], ys[1..], x, y);
      assert xs == [xs[0]] + xs[1..] && ys == [ys[0]] + ys[1..];
    }
  }

  lemma {:induction false} ListMoreCancels(xs: seq<string>, ys: seq<string>, x: string, y: string)
    requires ListMore(xs) + x == ListMore(ys) + y
    ensures xs == ys && x == y
    decreases |xs|, 2
  {
    assert (ListMore(xs) + x)[0] == ']' <==> xs == [];
    assert (ListMore(ys) + y)[0] == ']' <==> ys == [];
    if xs == [] {
      CancelPrefix("]", x, y);
    } else {
      Assoc(" ", ListTail(xs), x);
      Assoc(" ", ListTail(ys), y);
      CancelPrefix(" ", ListTail(xs) + x, ListTail(ys) + y);
      ListTailCancels(xs, ys, x, y);
    }
  }

  function LabelText(labels: map<string, string>, keys: seq<string>): string
    requires forall k :: k in keys ==> k in labels
  {
    if keys == [] then "" else LabelItem(labels, keys[0]) + LabelText(labels, keys[1..])
  }

  function LabelItem(labels: map<string, string>, k: string): string
    requires k in labels
  {
    Quote(k) + ("=" + (Quote(labels[k]) + ";"))
  }

  lemma LabelItemThen(labels: map<string, string>, k: string, x: string)
    requires k in labels
    ensures LabelItem(labels, k) + x == Quote(k) + ("=" + (Quote(labels[k]) + (";" + x)))
  {
    Assoc(Quote(k), "=" + (Quote(labels[k]) + ";"), x);
    Assoc("=", Quote(labels[k]) + ";", x);
    Assoc(Quote(labels[k]), ";", x);
  }

  lemma LabelItemCancels(a: map<string, string>, k: string, b: map<string, string>, m: string, x: string, y: string)
    requires k in a && m in b && LabelItem(a, k) + x == LabelItem(b, m) + y
    ensures k == m && a[k] == b[m] && x == y
  {
    LabelItemThen(a, k, x);
    LabelItemThen(b, m, y);
    var l, r := Quote(a[k]) + (";" + x), Quote(b[m]) + (";" + y);
    QuoteCancels(k, m, "=" + l, "=" + r);
    CancelPrefix("=", l, r);
    QuoteCancels(a[k], b[m], ";" + x, ";" + y);
    CancelPrefix(";", x, y);
  }

  lemma LabelTextHead(labels: map<string, string>, keys: seq<string>, x: string)
    requires forall k :: k in keys ==> k in labels
    ensures (LabelText(labels, keys) + ("|" + x))[0] == '|' <==> keys == []
  {}

  lemma {:induction false} LabelsCancel(
      a: map<string, string>, ks: seq<string>, b: map<string, string>, ls: seq<string>, x: string, y: string)
    requires (forall k :: k in ks ==> k in a) && (forall k :: k in ls ==> k in b)
    requires LabelText(a, ks) + ("|" + x) == LabelText(b, ls) + ("|" + y)
    ensures ks == ls && x == y && forall k :: k in ks ==> a[k] == b[k]
  {
    LabelTextHead(a, ks, x);
    LabelTextHead(b, ls, y);
    if ks == [] {
      assert "" + ("|" + x) == "|" + x && "" + ("|" + y) == "|" + y;
      CancelPrefix("|", x, y);
    } else {
      var k, m := ks[0], ls[0];
      Assoc(LabelItem(a, k), LabelText(a, ks[1..]), "|" + x);
      Assoc(LabelItem(b, m), LabelText(b, ls[1..]), "|" + y);
      LabelItemCancels(a, k, b, m, LabelText(a, ks[1..]) + ("|" + x), LabelText(b, ls[1..]) + ("|" + y));
      LabelsCancel(a, ks[1..], b, ls[1..], x, y);
      assert ks == [k] + ks[1..] && ls == [m] + ls[1..];
    }
  }

  /** The key, field by field: each quoted value, list or label run, then everything after it. */
  ghost function ScopeKey(s: Scope): string {
    Quote(s.deploymentID) + ("|" + AfterDeployment(s))
  }

  ghost function AfterDeployment(s: Scope): string {
    Quote(s.integrationID) + ("|" + (Quote(s.appName) + ("|" + (Quote(s.appVersion) + ("|" + AfterVersion(s))))))
  }

  ghost function AfterVersion(s: Scope): string {
    QuoteList(Sorted(s.levels)) + ("|" + (Quote(s.search) + ("|" + AfterSearch(s))))
  }

  ghost function AfterSearch(s: Scope): string {
    QuoteList(Sorted(s.pods)) + ("|" + (LabelText(s.labels, SortedKeys(s.labels)) + ("|" + (Quote(s.across) + ""))))
  }

  lemma QuotedFieldCancels(s: string, t: string, x: string, y: string)
    requires Quote(s) + ("|" + x) == Quote(t) + ("|" + y)
    ensures s == t && x == y
  {
    QuoteCancels(s, t, "|" + x, "|" + y);
    CancelPrefix("|", x, y);
  }

  lemma ListFieldCancels(xs: seq<string>, ys: seq<string>, x: string, y: string)
    requires QuoteList(xs) + ("|" + x) == QuoteList(ys) + ("|" + y)
    ensures xs == ys && x == y
  {
    Assoc("[", ListTail(xs), "|" + x);
    Assoc("[", ListTail(ys), "|" + y);
    CancelPrefix("[", ListTail(xs) + ("|" + x), ListTail(ys) + ("|" + y));
    ListTailCancels(xs, ys, "|" + x, "|" + y);
    CancelPrefix("|", x, y);
  }

  lemma EarlyFieldsCancel(s: Scope, t: Scope)
    requires ScopeKey(s) == ScopeKey(t)
    ensures s.deploymentID == t.deploymentID && s.integrationID == t.integrationID
    ensures s.appName == t.appName && s.appVersion == t.appVersion
    ensures AfterVersion(s) == AfterVersion(t)
  {
    QuotedFieldCancels(s.deploymentID, t.deploymentID, AfterDeployment(s), AfterDeployment(t));
    var v, w := Quote(s.appVersion) + ("|" + AfterVersion(s)), Quote(t.appVersion) + ("|" + AfterVersion(t));
    QuotedFieldCancels(s.integrationID, t.integrationID, Quote(s.appName) + ("|" + v), Quote(t.appName) + ("|" + w));
    QuotedFieldCancels(s.appName, t.appName, v, w);
    QuotedFieldCancels(s.appVersion, t.appVersion, AfterVersion(s), AfterVersion(t));
  }

  lemma MiddleFieldsCancel(s: Scope, t: Scope)
    requires AfterVersion(s) == AfterVersion(t)
    ensures Sorted(s.levels) == Sorted(t.levels) && s.search == t.search
    ensures AfterSearch(s) == AfterSearch(t)
  {
    ListFieldCancels(Sorted(s.levels), Sorted(t.levels),
                     Quote(s.search) + ("|" + AfterSearch(s)), Quote(t.search) + ("|" + AfterSearch(t)));
    QuotedFieldCancels(s.search, t.search, AfterSearch(s), AfterSearch(t));
  }

  lemma LateFieldsCancel(s: Scope, t: Scope)
    requires AfterSearch(s) == AfterSearch(t)
    ensures Sorted(s.pods) == Sorted(t.pods) && s.labels == t.labels && s.across == t.across
  {
    var ks, ls := SortedKeys(s.labels), SortedKeys(t.labels);
    var p, q := Quote(s.across) + "", Quote(t.across) + "";
    ListFieldCancels(Sorted(s.pods), Sorted(t.pods),
                     LabelText(s.labels, ks) + ("|" + p), LabelText(t.labels, ls) + ("|" + q));
    LabelsCancel(s.labels, ks, t.labels, ls, p, q);
    SameLabels(s.labels, t.labels);
    QuoteCancels(s.across, t.across, "", "");
  }

  lemma SameLabels(a: map<string, string>, b: map<string, string>)
    requires SortedKeys(a) == SortedKeys(b)
    requires forall k :: k in SortedKeys(a) ==> k in a && k in b && a[k] == b[k]
    ensures a == b
  {
    assert forall k :: k in a <==> k in b;
  }

  /** Two scopes render one key exactly when they narrow to the same rows. */
  lemma ScopeKeyExact(s: Scope, t: Scope)
    ensures ScopeKey(s) == ScopeKey(t) <==> RowsOf(s) == RowsOf(t)
  {
    SortedForgetsOrder(s.levels, t.levels);
    SortedForgetsOrder(s.pods, t.pods);
    if ScopeKey(s) == ScopeKey(t) {
      EarlyFieldsCancel(s, t);
      MiddleFieldsCancel(s, t);
      LateFieldsCancel(s, t);
    }
  }

  // ----- the key is free of NUL ----------------------------------------------------------------

  lemma {:induction false} ListTailHasNoNul(xs: seq<string>)
    ensures NUL !in ListTail(xs)
  {
    if xs != [] {
      EscapedHasNoNul(xs[0]);
      ListTailHasNoNul(xs[1..]);
    }
  }

  lemma {:induction false} LabelTextHasNoNul(labels: map<string, string>, keys: seq<string>)
    requires forall k :: k in keys ==> k in labels
    ensures NUL !in LabelText(labels, keys)
  {
    hide LabelItem;
    if keys != [] {
      ItemIsClean(labels, keys[0]);
      LabelTextHasNoNul(labels, keys[1..]);
    }
  }

  lemma ItemIsClean(labels: map<string, string>, k: string)
    requires k in labels
    ensures NUL !in LabelItem(labels, k)
  {
    EscapedHasNoNul(k);
    EscapedHasNoNul(labels[k]);
  }

  predicate Clean(x: string) { NUL !in x }

  /** A field, the bar after it and what follows are free of NUL together when they are apart. */
  lemma FieldThen(field: string, rest: string)
    requires Clean(field) && Clean(rest)
    ensures Clean(field + ("|" + rest))
  {}

  lemma QuoteIsClean(s: string)
    ensures Clean(Quote(s))
  {
    EscapedHasNoNul(s);
  }

  lemma QuoteListIsClean(xs: seq<string>)
    ensures Clean(QuoteList(xs))
  {
    ListTailHasNoNul(xs);
  }

  lemma LabelTextIsClean(labels: map<string, string>)
    ensures Clean(LabelText(labels, SortedKeys(labels)))
  {
    LabelTextHasNoNul(labels, SortedKeys(labels));
  }

  lemma LastFieldIsClean(s: string)
    ensures Clean(Quote(s) + "")
  {
    QuoteIsClean(s);
  }

  lemma AfterVersionIsClean(s: Scope)
    ensures Clean(AfterVersion(s))
  {
    hide Clean, Quote, QuoteList, LabelText, SortedKeys, Sorted;
    LastFieldIsClean(s.across);
    LabelTextIsClean(s.labels);
    FieldThen(LabelText(s.labels, SortedKeys(s.labels)), Quote(s.across) + "");
    QuoteListIsClean(Sorted(s.pods));
    FieldThen(QuoteList(Sorted(s.pods)), LabelText(s.labels, SortedKeys(s.labels)) + ("|" + (Quote(s.across) + "")));
    QuoteIsClean(s.search);
    FieldThen(Quote(s.search), AfterSearch(s));
    QuoteListIsClean(Sorted(s.levels));
    FieldThen(QuoteList(Sorted(s.levels)), Quote(s.search) + ("|" + AfterSearch(s)));
  }

  lemma ScopeKeyIsClean(s: Scope)
    ensures Clean(ScopeKey(s))
  {
    hide Clean, Quote, AfterVersion;
    AfterVersionIsClean(s);
    QuoteIsClean(s.appVersion);
    FieldThen(Quote(s.appVersion), AfterVersion(s));
    QuoteIsClean(s.appName);
    FieldThen(Quote(s.appName), Quote(s.appVersion) + ("|" + AfterVersion(s)));
    QuoteIsClean(s.integrationID);
    FieldThen(Quote(s.integrationID), Quote(s.appName) + ("|" + (Quote(s.appVersion) + ("|" + AfterVersion(s)))));
    QuoteIsClean(s.deploymentID);
    FieldThen(Quote(s.deploymentID), AfterDeployment(s));
  }

  lemma ScopeKeyHasNoNul(s: Scope)
    ensures NUL !in ScopeKey(s)
  {
    ScopeKeyIsClean(s);
    hide ScopeKey;
  }

  // ----- the renderer as it runs ---------------------------------------------------------------

  /** Collects the label names in whatever order the map yields them, then sorts the copy. */
  method CollectKeys(labels: map<string, string>) returns (keys: seq<string>)
    ensures keys == SortedKeys(labels)
  {
    var rest, found := labels.Keys, [];
    while rest != {}
      invariant rest <= labels.Keys
      invariant multiset(found) == multiset(labels.Keys - rest)
      decreases |rest|
    {
      var k :| k in rest;
      assert labels.Keys - (rest - {k}) == (labels.Keys - rest) + {k};
      found, rest := found + [k], rest - {k};
    }
    assert labels.Keys - rest == labels.Keys;
    SortedForgetsOrder(found, Listing(labels.Keys));
    LeqIsTotalOrder();
    keys := Sorting.SortBy(Leq, found);
  }

  lemma {:induction false} LabelTextGrows(labels: map<string, string>, keys: seq<string>, i: nat)
    requires i < |keys| && forall k :: k in keys ==> k in labels
    ensures LabelText(labels, keys[..i + 1]) == LabelText(labels, keys[..i]) + LabelItem(labels, keys[i])
  {
    if i == 0 {
      assert keys[..1] == [keys[0]];
    } else {
      LabelTextGrows(labels, keys[1..], i - 1);
      assert keys[..i + 1][1..] == keys[1..][..i] && keys[..i][1..] == keys[1..][..i - 1];
      Assoc(LabelItem(labels, keys[0]), LabelText(labels, keys[1..][..i - 1]), LabelItem(labels, keys[i]));
    }
  }

  /** Builds the key left to right, the labels in a loop over their sorted names. */
  method RenderScope(s: Scope) returns (b: string)
    ensures b == ScopeKey(s)
  {
    LeqIsTotalOrder();
    var keys := CollectKeys(s.labels);
    var text := "";
    for i := 0 to |keys|
      invariant text == LabelText(s.labels, keys[..i])
    {
      LabelTextGrows(s.labels, keys, i);
      text := text + LabelItem(s.labels, keys[i]);
    }
    assert keys[..|keys|] == keys;
    var tail := QuoteList(Sorting.SortBy(Leq, s.pods)) + ("|" + (text + ("|" + (Quote(s.across) + ""))));
    b := QuoteList(Sorting.SortBy(Leq, s.levels)) + ("|" + (Quote(s.search) + ("|" + tail)));
    b := Quote(s.integrationID) + ("|" + (Quote(s.appName) + ("|" + (Quote(s.appVersion) + ("|" + b)))));
    b := Quote(s.deploymentID) + ("|" + b);
  }
}
