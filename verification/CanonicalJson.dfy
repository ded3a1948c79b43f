/**
 * The canonical JSON text behind a report seal: equal as values exactly when
 * equal as text. Strings are UTF-16 code units, as in the source language.
 */
module CanonicalJson {
  import opened TextOrder
  import opened Wrappers

  type Unit = x: int | 0 <= x < 0x10000
  type Text = seq<Unit>

  predicate IsDigit(c: int) { 48 <= c <= 57 }

  predicate NumberText(t: Text)
  {
    && t != [] && (IsDigit(t[0]) || t[0] == 45)
    && forall i :: 0 <= i < |t| ==> NumberUnit(t[i])
  }

  predicate NumberUnit(c: int) { IsDigit(c) || c == 43 || c == 45 || c == 46 || c == 101 }

  /** A finite number is identified by its shortest decimal text. */
  type Decimal = t: Text | NumberText(t) witness [48]

  /** A value as the language has it: an object is a list of entries with distinct keys, in some order. */
  datatype Js =
    | Undefined
    | Unsupported
    | NonFinite
    | Null
    | Bool(flag: bool)
    | Num(number: Decimal)
    | Str(text: Text)
    | Arr(items: seq<Js>)
    | Obj(entries: seq<(Text, Js)>)

  /** What the value means: objects are finite maps. */
  datatype Json =
    | JNull
    | JBool(flag: bool)
    | JNum(number: Decimal)
    | JStr(text: Text)
    | JArr(items: seq<Json>)
    | JObj(fields: map<Text, Json>)

  // ---- strings ----

  function Hex(d: int): (u: Unit)
    requires 0 <= d < 16
  {
    if d < 10 then 48 + d else 87 + d
  }

  function Escape(u: Unit): Text
  {
    if u == 34 then [92, 34]
    else if u == 92 then [92, 92]
    else if u == 8 then [92, 98]
    else if u == 9 then [92, 116]
    else if u == 10 then [92, 110]
    else if u == 12 then [92, 102]
    else if u == 13 then [92, 114]
    else if u < 0x20 || 0xd800 <= u < 0xe000 then
      [92, 117, Hex(u / 4096), Hex(u / 256 % 16), Hex(u / 16 % 16), Hex(u % 16)]
    else [u]
  }

  predicate IsPair(s: Text)
  {
    |s| >= 2 && 0xd800 <= s[0] < 0xdc00 && 0xdc00 <= s[1] < 0xe000
  }

  /** A surrogate pair stays as it is; a lone surrogate is escaped. */
  function QuoteBody(s: Text): Text
  {
    if s == [] then []
    else if IsPair(s) then [s[0], s[1]] + QuoteBody(s[2..])
    else Escape(s[0]) + QuoteBody(s[1..])
  }

  function Quote(s: Text): Text { [34] + QuoteBody(s) + [34] }

  lemma HexUnique(u: Unit, w: Unit)
    requires Hex(u / 4096) == Hex(w / 4096) && Hex(u / 256 % 16) == Hex(w / 256 % 16)
    requires Hex(u / 16 % 16) == Hex(w / 16 % 16) && Hex(u % 16) == Hex(w % 16)
    ensures u == w
  {
    HexValue(u);
    HexValue(w);
  }

  lemma HexValue(u: Unit)
    ensures u == 4096 * (u / 4096) + 256 * (u / 256 % 16) + 16 * (u / 16 % 16) + u % 16
  {
    assert u / 4096 == u / 256 / 16 && u / 256 == u / 16 / 16;
  }

  lemma EscapeUnique(u: Unit, x: Text, w: Unit, y: Text)
    requires Escape(u) + x == Escape(w) + y
    ensures u == w && x == y
  {
    var a, b := Escape(u) + x, Escape(w) + y;
    assert a[0] == b[0];
    if |Escape(u)| > 1 {
      assert a[1] == b[1];
      if |Escape(u)| == 6 {
        assert a[2] == b[2] && a[3] == b[3] && a[4] == b[4] && a[5] == b[5];
        HexUnique(u, w);
      }
    }
    assert |Escape(u)| == |Escape(w)|;
    assert x == a[|Escape(u)|..] && y == b[|Escape(w)|..];
  }

  lemma QuoteBodyStarts(s: Text)
    requires s != []
    ensures QuoteBody(s) != [] && QuoteBody(s)[0] != 34
    ensures (0xd800 <= QuoteBody(s)[0] < 0xe000) <==> IsPair(s)
  {
  }

  /** A quoted string can be told from whatever follows it. */
  lemma {:induction false} QuoteBodyUnique(s: Text, x: Text, t: Text, y: Text)
    requires QuoteBody(s) + [34] + x == QuoteBody(t) + [34] + y
    ensures s == t && x == y
    decreases |s|
  {
    hide Escape, QuoteBody;
    var a, b := QuoteBody(s) + [34] + x, QuoteBody(t) + [34] + y;
    QuoteFirst(s, x);
    QuoteFirst(t, y);
    QuoteBodyUnfolds(s);
    QuoteBodyUnfolds(t);
    if s == [] {
      assert x == a[1..] && y == b[1..];
    } else if IsPair(s) {
      assert a[..2] == s[..2] && b[..2] == t[..2];
      assert a[2..] == QuoteBody(s[2..]) + [34] + x && b[2..] == QuoteBody(t[2..]) + [34] + y;
      QuoteBodyUnique(s[2..], x, t[2..], y);
      assert s == s[..2] + s[2..] && t == t[..2] + t[2..];
    } else {
      assert a == Escape(s[0]) + (QuoteBody(s[1..]) + [34] + x);
      assert b == Escape(t[0]) + (QuoteBody(t[1..]) + [34] + y);
      EscapeUnique(s[0], QuoteBody(s[1..]) + [34] + x, t[0], QuoteBody(t[1..]) + [34] + y);
      QuoteBodyUnique(s[1..], x, t[1..], y);
      assert s == [s[0]] + s[1..] && t == [t[0]] + t[1..];
    }
  }

  /** The first unit tells an end, a pair and everything else apart. */
  lemma QuoteFirst(s: Text, x: Text)
    ensures var c := (QuoteBody(s) + [34] + x)[0];
            (c == 34 <==> s == []) && (0xd800 <= c < 0xe000 <==> IsPair(s))
  {
    if s != [] { QuoteBodyStarts(s); }
  }

  lemma QuoteBodyUnfolds(s: Text)
    ensures s == [] ==> QuoteBody(s) == []
    ensures s != [] && IsPair(s) ==> QuoteBody(s) == s[..2] + QuoteBody(s[2..])
    ensures s != [] && !IsPair(s) ==> QuoteBody(s) == Escape(s[0]) + QuoteBody(s[1..])
  {
    if IsPair(s) { assert s[..2] == [s[0], s[1]]; }
  }

  lemma QuoteUnique(s: Text, x: Text, t: Text, y: Text)
    requires Quote(s) + x == Quote(t) + y
    ensures s == t && x == y
  {
    var a, b := Quote(s) + x, Quote(t) + y;
    assert a[1..] == QuoteBody(s) + [34] + x && b[1..] == QuoteBody(t) + [34] + y;
    QuoteBodyUnique(s, x, t, y);
  }

  // ---- sorting entries by key ----

  function Insert<T>(e: (Text, T), es: seq<(Text, T)>): seq<(Text, T)>
  {
    if es == [] || Less(e.0, es[0].0) then [e] + es else [es[0]] + Insert(e, es[1..])
  }

  function Sort<T>(es: seq<(Text, T)>): seq<(Text, T)>
  {
    if es == [] then [] else Insert(es[0], Sort(es[1..]))
  }

  ghost function Keys<T>(es: seq<(Text, T)>): set<Text>
  {
    set e | e in es :: e.0
  }

  predicate DistinctKeys<T>(es: seq<(Text, T)>)
  {
    forall i, j :: 0 <= i < j < |es| ==> es[i].0 != es[j].0
  }

  predicate SortedKeys<T>(es: seq<(Text, T)>)
  {
    forall i, j :: 0 <= i < j < |es| ==> Less(es[i].0, es[j].0)
  }

  lemma {:induction false} InsertSorts<T>(e: (Text, T), es: seq<(Text, T)>)
    requires SortedKeys(es) && e.0 !in Keys(es)
    ensures SortedKeys(Insert(e, es)) && Keys(Insert(e, es)) == Keys(es) + {e.0}
  {
    if es == [] {
      assert Insert(e, es) == [e];
    } else if Less(e.0, es[0].0) {
      forall j | 0 <= j < |es| ensures Less(e.0, es[j].0) {
        if j > 0 { Transitive(e.0, es[0].0, es[j].0); }
      }
      assert Insert(e, es) == [e] + es;
    } else {
      var rest := Insert(e, es[1..]);
      assert es == [es[0]] + es[1..];
      assert Keys(es) == Keys(es[1..]) + {es[0].0};
      InsertSorts(e, es[1..]);
      Total(e.0, es[0].0);
      assert es[0].0 in Keys(es);
      forall j | 0 <= j < |rest| ensures Less(es[0].0, rest[j].0) {
        assert rest[j].0 in Keys(rest);
        if rest[j].0 != e.0 {
          assert rest[j].0 in Keys(es[1..]);
          var k :| 0 <= k < |es[1..]| && es[1..][k].0 == rest[j].0;
          assert Less(es[0].0, es[k + 1].0);
        }
      }
      assert Keys([es[0]] + rest) == Keys(rest) + {es[0].0};
    }
  }

  lemma {:induction false} SortSorts<T>(es: seq<(Text, T)>)
    requires DistinctKeys(es)
    ensures SortedKeys(Sort(es)) && Keys(Sort(es)) == Keys(es)
  {
    if es != [] {
      SortSorts(es[1..]);
      assert es == [es[0]] + es[1..];
      assert Keys(es) == Keys(es[1..]) + {es[0].0};
      InsertSorts(es[0], Sort(es[1..]));
    }
  }

  // ---- the canonical text ----

  function Join(parts: seq<Text>): Text
  {
    if parts == [] then [] else if |parts| == 1 then parts[0] else parts[0] + [44] + Join(parts[1..])
  }

  function Members(es: seq<(Text, Text)>): seq<Text>
  {
    if es == [] then [] else [Quote(es[0].0) + [58] + es[0].1] + Members(es[1..])
  }

  const NULL_TEXT: Text := [110, 117, 108, 108]
  const TRUE_TEXT: Text := [116, 114, 117, 101]
  const FALSE_TEXT: Text := [102, 97, 108, 115, 101]

  /** None where the source throws. An entry's place depends on its key alone. */
  function Canonical(v: Js): Option<Text>
    decreases v, 1
  {
    match v
    case Undefined => None
    case Unsupported => None
    case NonFinite => None
    case Null => Some(NULL_TEXT)
    case Bool(flag) => Some(if flag then TRUE_TEXT else FALSE_TEXT)
    case Num(number) => Some(number)
    case Str(text) => Some(Quote(text))
    case Arr(items) =>
      (match CanonicalItems(items)
       case None => None
       case Some(parts) => Some([91] + Join(parts) + [93]))
    case Obj(entries) =>
      (match CanonicalEntries(entries)
       case None => None
       case Some(es) => Some([123] + Join(Members(Sort(es))) + [125]))
  }

  function CanonicalItems(items: seq<Js>): Option<seq<Text>>
    decreases items, 0
  {
    if items == [] then Some([])
    else
      match (Canonical(items[0]), CanonicalItems(items[1..]))
      case (Some(t), Some(ts)) => Some([t] + ts)
      case _ => None
  }

  function CanonicalEntries(entries: seq<(Text, Js)>): Option<seq<(Text, Text)>>
    decreases entries, 0
  {
    if entries == [] then Some([])
    else if entries[0].1.Undefined? then CanonicalEntries(entries[1..])
    else
      assert entries decreases to entries[0];
      match (Canonical(entries[0].1), CanonicalEntries(entries[1..]))
      case (Some(t), Some(ts)) => Some([(entries[0].0, t)] + ts)
      case _ => None
  }

  /** Distinct keys in every object, as the language guarantees. */
  predicate WellFormed(v: Js)
  {
    match v
    case Arr(items) => forall i :: 0 <= i < |items| ==> WellFormed(items[i])
    case Obj(entries) => DistinctKeys(entries) && forall i :: 0 <= i < |entries| ==> WellFormed(entries[i].1)
    case _ => true
  }

  /** Nothing in the value makes the printer throw; an undefined field is simply absent. */
  predicate Printable(v: Js)
  {
    match v
    case Undefined => false
    case Unsupported => false
    case NonFinite => false
    case Arr(items) => forall i :: 0 <= i < |items| ==> Printable(items[i])
    case Obj(entries) =>
      forall i :: 0 <= i < |entries| ==> entries[i].1.Undefined? || Printable(entries[i].1)
    case _ => true
  }

  function Value(v: Js): Json
    requires Printable(v)
    decreases v, 1
  {
    match v
    case Null => JNull
    case Bool(flag) => JBool(flag)
    case Num(number) => JNum(number)
    case Str(text) => JStr(text)
    case Arr(items) => JArr(ValueItems(items))
    case Obj(entries) => JObj(ValueFields(entries))
  }

  function ValueItems(items: seq<Js>): seq<Json>
    requires forall i :: 0 <= i < |items| ==> Printable(items[i])
    decreases items, 0
  {
    if items == [] then [] else [Value(items[0])] + ValueItems(items[1..])
  }

  function ValueFields(entries: seq<(Text, Js)>): map<Text, Json>
    requires forall i :: 0 <= i < |entries| ==> entries[i].1.Undefined? || Printable(entries[i].1)
    decreases entries, 0
  {
    if entries == [] then map[]
    else
      assert entries decreases to entries[0];
      var rest := ValueFields(entries[1..]);
      if entries[0].1.Undefined? then rest else rest[entries[0].0 := Value(entries[0].1)]
  }

  // ---- the sorted tree between a value and its text ----

  datatype Tree =
    | TNull
    | TBool(flag: bool)
    | TNum(number: Decimal)
    | TStr(text: Text)
    | TArr(items: seq<Tree>)
    | TObj(entries: seq<(Text, Tree)>)

  function Norm(v: Js): Tree
    requires Printable(v)
    decreases v, 1
  {
    match v
    case Null => TNull
    case Bool(flag) => TBool(flag)
    case Num(number) => TNum(number)
    case Str(text) => TStr(text)
    case Arr(items) => TArr(NormItems(items))
    case Obj(entries) => TObj(Sort(NormEntries(entries)))
  }

  function NormItems(items: seq<Js>): seq<Tree>
    requires forall i :: 0 <= i < |items| ==> Printable(items[i])
    decreases items, 0
  {
    if items == [] then [] else [Norm(items[0])] + NormItems(items[1..])
  }

  function NormEntries(entries: seq<(Text, Js)>): seq<(Text, Tree)>
    requires forall i :: 0 <= i < |entries| ==> entries[i].1.Undefined? || Printable(entries[i].1)
    decreases entries, 0
  {
    if entries == [] then []
    else
      assert entries decreases to entries[0];
      var rest := NormEntries(entries[1..]);
      if entries[0].1.Undefined? then rest else [(entries[0].0, Norm(entries[0].1))] + rest
  }

  function Print(t: Tree): Text
    decreases t, 1
  {
    match t
    case TNull => NULL_TEXT
    case TBool(flag) => if flag then TRUE_TEXT else FALSE_TEXT
    case TNum(number) => number
    case TStr(text) => Quote(text)
    case TArr(items) => [91] + Join(PrintItems(items)) + [93]
    case TObj(entries) => [123] + Join(Members(PrintEntries(entries))) + [125]
  }

  function PrintItems(items: seq<Tree>): seq<Text>
    decreases items, 0
  {
    if items == [] then [] else [Print(items[0])] + PrintItems(items[1..])
  }

  function PrintEntries(entries: seq<(Text, Tree)>): (r: seq<(Text, Text)>)
    decreases entries, 0
  {
    if entries == [] then []
    else
      assert entries decreases to entries[0];
      [(entries[0].0, Print(entries[0].1))] + PrintEntries(entries[1..])
  }

  lemma {:induction false} PrintInsert(e: (Text, Tree), es: seq<(Text, Tree)>)
    ensures PrintEntries(Insert(e, es)) == Insert((e.0, Print(e.1)), PrintEntries(es))
  {
    hide Print;
    if es == [] {
      assert Insert(e, es) == [e] && [e][1..] == [];
    } else if Less(e.0, es[0].0) {
      assert ([e] + es)[1..] == es;
    } else {
      PrintInsert(e, es[1..]);
      assert ([es[0]] + Insert(e, es[1..]))[1..] == Insert(e, es[1..]);
      assert PrintEntries(es)[1..] == PrintEntries(es[1..]);
    }
  }

  lemma {:induction false} PrintSort(es: seq<(Text, Tree)>)
    ensures PrintEntries(Sort(es)) == Sort(PrintEntries(es))
  {
    hide Print, Insert;
    if es != [] {
      PrintSort(es[1..]);
      PrintInsert(es[0], Sort(es[1..]));
      assert PrintEntries(es)[1..] == PrintEntries(es[1..]);
    }
  }

  /** The printer throws exactly on unprintable values, and otherwise prints the sorted tree. */
  lemma {:induction false} CanonicalIsPrint(v: Js)
    ensures Canonical(v) == if Printable(v) then Some(Print(Norm(v))) else None
    decreases v, 1
  {
    hide Join, Members, Sort, Quote;
    match v
    case Arr(items) => ItemsArePrint(items);
    case Obj(entries) =>
      EntriesArePrint(entries);
      if Printable(v) { PrintSort(NormEntries(entries)); }
    case _ =>
  }

  lemma {:induction false} ItemsArePrint(items: seq<Js>)
    ensures var ok := forall i :: 0 <= i < |items| ==> Printable(items[i]);
            CanonicalItems(items) == if ok then Some(PrintItems(NormItems(items))) else None
    decreases items, 0
  {
    hide Canonical, Print, Norm, Printable;
    if items != [] {
      CanonicalIsPrint(items[0]);
      ItemsArePrint(items[1..]);
    }
  }

  lemma {:induction false} EntriesArePrint(entries: seq<(Text, Js)>)
    ensures var ok := forall i :: 0 <= i < |entries| ==> entries[i].1.Undefined? || Printable(entries[i].1);
            CanonicalEntries(entries) == if ok then Some(PrintEntries(NormEntries(entries))) else None
    decreases entries, 0
  {
    hide Canonical, Print, Norm, Printable;
    if entries != [] {
      assert entries decreases to entries[0];
      CanonicalIsPrint(entries[0].1);
      EntriesArePrint(entries[1..]);
    }
  }

  // ---- equal text, equal tree ----

  /** What may follow a value: nothing, a comma or a closing bracket. */
  predicate Stops(rest: Text) { rest == [] || rest[0] == 44 || rest[0] == 93 || rest[0] == 125 }

  lemma {:induction false} NumberUnique(a: Text, x: Text, b: Text, y: Text)
    requires (forall i :: 0 <= i < |a| ==> NumberUnit(a[i])) && (forall i :: 0 <= i < |b| ==> NumberUnit(b[i]))
    requires Stops(x) && Stops(y) && a + x == b + y
    ensures a == b && x == y
    decreases |a|
  {
    assert a == [] ==> a + x == x;
    assert b == [] ==> b + y == y;
    if a != [] && b != [] {
      assert (a + x)[0] == a[0] && (b + y)[0] == b[0];
      assert (a + x)[1..] == a[1..] + x && (b + y)[1..] == b[1..] + y;
      NumberUnique(a[1..], x, b[1..], y);
      assert a == [a[0]] + a[1..] && b == [b[0]] + b[1..];
    }
  }

  /** The first unit of a value tells what kind of value it is. */
  function Kind(t: Tree): int
  {
    match t
    case TNull => 110
    case TBool(flag) => if flag then 116 else 102
    case TNum(_) => 0
    case TStr(_) => 34
    case TArr(_) => 91
    case TObj(_) => 123
  }

  lemma PrintStarts(t: Tree)
    ensures Print(t) != [] && !Stops(Print(t))
    ensures Kind(t) == if IsDigit(Print(t)[0]) || Print(t)[0] == 45 then 0 else Print(t)[0]
  {
    hide Join, Members;
  }

  /** A printed value can be told from whatever may follow it. */
  lemma {:induction false} PrintUnique(t: Tree, x: Text, u: Tree, y: Text)
    requires Print(t) + x == Print(u) + y && Stops(x) && Stops(y)
    ensures t == u && x == y
    decreases t, 1
  {
    hide Join, Members, Quote, PrintItems, PrintEntries;
    var a, b := Print(t) + x, Print(u) + y;
    PrintStarts(t);
    PrintStarts(u);
    assert a[0] == Print(t)[0] && b[0] == Print(u)[0];
    assert Kind(t) == Kind(u);
    match t
    case TNum(number) => NumberUnique(number, x, u.number, y);
    case TStr(text) => QuoteUnique(text, x, u.text, y);
    case TArr(items) =>
      assert a[1..] == Join(PrintItems(items)) + [93] + x && b[1..] == Join(PrintItems(u.items)) + [93] + y;
      ItemsUnique(items, x, u.items, y);
    case TObj(entries) =>
      assert a[1..] == Join(Members(PrintEntries(entries))) + [125] + x;
      assert b[1..] == Join(Members(PrintEntries(u.entries))) + [125] + y;
      EntriesUnique(entries, x, u.entries, y);
    case _ =>
      assert x == a[|Print(t)|..] && y == b[|Print(u)|..];
  }

  /** The rest of a list: nothing, or a comma and more. */
  function Tail(parts: seq<Text>): Text
  {
    if parts == [] then [] else [44] + Join(parts)
  }

  lemma JoinUnfolds(part: Text, parts: seq<Text>)
    ensures Join([part] + parts) == part + Tail(parts)
  {
    assert ([part] + parts)[1..] == parts;
  }

  lemma TailStops(parts: seq<Text>, close: Unit, x: Text)
    requires close == 93 || close == 125
    ensures var r := Tail(parts) + [close] + x;
            && Stops(r) && (r[0] == 44 <==> parts != [])
            && (parts == [] ==> r == [close] + x)
            && (parts != [] ==> r[1..] == Join(parts) + [close] + x)
  {
    if parts != [] {
      assert Tail(parts) + [close] + x == [44] + (Join(parts) + [close] + x);
    }
  }

  lemma TailsUnique(ps: seq<Text>, x: Text, qs: seq<Text>, y: Text, close: Unit)
    requires close == 93 || close == 125
    requires Tail(ps) + [close] + x == Tail(qs) + [close] + y
    ensures ps == [] <==> qs == []
    ensures ps == [] ==> x == y
    ensures ps != [] ==> Join(ps) + [close] + x == Join(qs) + [close] + y
  {
    hide Tail, Join;
    TailStops(ps, close, x);
    TailStops(qs, close, y);
    if ps == [] { assert x == ([close] + x)[1..] && y == ([close] + y)[1..]; }
  }

  lemma {:induction false} ItemsUnique(items: seq<Tree>, x: Text, others: seq<Tree>, y: Text)
    requires Join(PrintItems(items)) + [93] + x == Join(PrintItems(others)) + [93] + y
    ensures items == others && x == y
    decreases items, 0
  {
    hide Print, Join, Tail;
    var a, b := Join(PrintItems(items)) + [93] + x, Join(PrintItems(others)) + [93] + y;
    ItemsStart(items, x);
    ItemsStart(others, y);
    if items == [] {
      NoParts();
      assert x == a[1..] && y == b[1..];
    } else {
      var ps, qs := PrintItems(items[1..]), PrintItems(others[1..]);
      JoinUnfolds(Print(items[0]), ps);
      JoinUnfolds(Print(others[0]), qs);
      assert a == Print(items[0]) + (Tail(ps) + [93] + x) && b == Print(others[0]) + (Tail(qs) + [93] + y);
      TailStops(ps, 93, x);
      TailStops(qs, 93, y);
      PrintUnique(items[0], Tail(ps) + [93] + x, others[0], Tail(qs) + [93] + y);
      TailsUnique(ps, x, qs, y, 93);
      if ps != [] { ItemsUnique(items[1..], x, others[1..], y); }
      assert items == [items[0]] + items[1..] && others == [others[0]] + others[1..];
    }
  }

  lemma NoParts()
    ensures Join([]) == []
  {
  }

  lemma ItemsStart(items: seq<Tree>, x: Text)
    ensures (Join(PrintItems(items)) + [93] + x)[0] == 93 <==> items == []
  {
    if items != [] {
      hide Join, Print;
      JoinUnfolds(Print(items[0]), PrintItems(items[1..]));
      PrintStarts(items[0]);
    }
  }

  function Member(e: (Text, Tree)): Text { Quote(e.0) + [58] + Print(e.1) }

  lemma MembersUnfold(entries: seq<(Text, Tree)>)
    requires entries != []
    ensures Members(PrintEntries(entries)) == [Member(entries[0])] + Members(PrintEntries(entries[1..]))
  {
    hide Quote, Print;
    assert PrintEntries(entries)[1..] == PrintEntries(entries[1..]);
  }

  lemma EntriesStart(entries: seq<(Text, Tree)>, x: Text)
    ensures (Join(Members(PrintEntries(entries))) + [125] + x)[0] == 125 <==> entries == []
    ensures Members(PrintEntries(entries)) == [] <==> entries == []
  {
    if entries != [] {
      hide Join, Print, Members;
      MembersUnfold(entries);
      JoinUnfolds(Member(entries[0]), Members(PrintEntries(entries[1..])));
    }
  }

  lemma {:induction false} EntriesUnique(entries: seq<(Text, Tree)>, x: Text, others: seq<(Text, Tree)>, y: Text)
    requires Join(Members(PrintEntries(entries))) + [125] + x == Join(Members(PrintEntries(others))) + [125] + y
    ensures entries == others && x == y
    decreases entries, 0
  {
    hide Print, Join, Tail, Quote, Members, Member, PrintEntries;
    var a := Join(Members(PrintEntries(entries))) + [125] + x;
    var b := Join(Members(PrintEntries(others))) + [125] + y;
    EntriesStart(entries, x);
    EntriesStart(others, y);
    if entries == [] {
      NoParts();
      assert x == a[1..] && y == b[1..];
    } else {
      assert entries decreases to entries[0];
      var ps, qs := Members(PrintEntries(entries[1..])), Members(PrintEntries(others[1..]));
      MembersUnfold(entries);
      MembersUnfold(others);
      JoinUnfolds(Member(entries[0]), ps);
      JoinUnfolds(Member(others[0]), qs);
      var p, q := Tail(ps) + [125] + x, Tail(qs) + [125] + y;
      assert a == Member(entries[0]) + p && b == Member(others[0]) + q;
      TailStops(ps, 125, x);
      TailStops(qs, 125, y);
      MemberSplits(entries[0], p, others[0], q);
      PrintUnique(entries[0].1, p, others[0].1, q);
      TailsUnique(ps, x, qs, y, 125);
      EntriesStart(entries[1..], x);
      EntriesStart(others[1..], y);
      if ps != [] { EntriesUnique(entries[1..], x, others[1..], y); }
      assert entries == [entries[0]] + entries[1..] && others == [others[0]] + others[1..];
    }
  }

  lemma MemberSplits(e: (Text, Tree), p: Text, f: (Text, Tree), q: Text)
    requires Member(e) + p == Member(f) + q
    ensures e.0 == f.0 && Print(e.1) + p == Print(f.1) + q
  {
    hide Quote, Print;
    var x, y := [58] + Print(e.1) + p, [58] + Print(f.1) + q;
    assert Member(e) + p == Quote(e.0) + x && Member(f) + q == Quote(f.0) + y;
    QuoteUnique(e.0, x, f.0, y);
    assert x[1..] == Print(e.1) + p && y[1..] == Print(f.1) + q;
  }

  // ---- equal tree, equal value ----

  function ToJson(t: Tree): Json
    decreases t, 1
  {
    match t
    case TNull => JNull
    case TBool(flag) => JBool(flag)
    case TNum(number) => JNum(number)
    case TStr(text) => JStr(text)
    case TArr(items) => JArr(ToItems(items))
    case TObj(entries) => JObj(ToFields(entries))
  }

  function ToItems(items: seq<Tree>): seq<Json>
    decreases items, 0
  {
    if items == [] then [] else [ToJson(items[0])] + ToItems(items[1..])
  }

  function ToFields(entries: seq<(Text, Tree)>): map<Text, Json>
    decreases entries, 0
  {
    if entries == [] then map[]
    else
      assert entries decreases to entries[0];
      ToFields(entries[1..])[entries[0].0 := ToJson(entries[0].1)]
  }

  ghost predicate SortedTree(t: Tree)
  {
    match t
    case TArr(items) => forall i :: 0 <= i < |items| ==> SortedTree(items[i])
    case TObj(entries) => SortedKeys(entries) && forall i :: 0 <= i < |entries| ==> SortedTree(entries[i].1)
    case _ => true
  }

  lemma {:induction false} FieldKeys(entries: seq<(Text, Tree)>)
    ensures ToFields(entries).Keys == Keys(entries)
  {
    hide ToJson;
    if entries != [] {
      FieldKeys(entries[1..]);
      assert entries == [entries[0]] + entries[1..];
    }
  }

  lemma {:induction false} FieldsInsert(e: (Text, Tree), es: seq<(Text, Tree)>)
    requires e.0 !in Keys(es) && SortedKeys(es)
    ensures ToFields(Insert(e, es)) == ToFields(es)[e.0 := ToJson(e.1)]
  {
    hide ToJson, SortedKeys;
    if es == [] || Less(e.0, es[0].0) {
      assert ([e] + es)[1..] == es;
    } else {
      assert es == [es[0]] + es[1..];
      assert es[0].0 in Keys(es);
      SortedRest(es);
      FieldsInsert(e, es[1..]);
      assert ([es[0]] + Insert(e, es[1..]))[1..] == Insert(e, es[1..]);
    }
  }

  lemma SortedRest<T>(es: seq<(Text, T)>)
    requires es != [] && SortedKeys(es)
    ensures SortedKeys(es[1..]) && Keys(es) == Keys(es[1..]) + {es[0].0} && es[0].0 !in Keys(es[1..])
    ensures forall k :: k in Keys(es[1..]) ==> Less(es[0].0, k)
  {
    assert es == [es[0]] + es[1..];
    forall k | k in Keys(es[1..]) ensures Less(es[0].0, k) {
      var i :| 0 <= i < |es[1..]| && es[1..][i].0 == k;
      assert es[i + 1].0 == k;
    }
    Irreflexive(es[0].0);
  }

  lemma {:induction false} FieldsSort(es: seq<(Text, Tree)>)
    requires DistinctKeys(es)
    ensures ToFields(Sort(es)) == ToFields(es)
  {
    hide ToJson, Insert;
    if es != [] {
      FieldsSort(es[1..]);
      SortSorts(es[1..]);
      assert es[0].0 !in Keys(es[1..]) by {
        assert forall i :: 0 <= i < |es[1..]| ==> es[1..][i].0 == es[i + 1].0;
      }
      FieldsInsert(es[0], Sort(es[1..]));
    }
  }

  ghost predicate ValuesSorted(es: seq<(Text, Tree)>)
  {
    forall e :: e in es ==> SortedTree(e.1)
  }

  lemma {:induction false} InsertValues(e: (Text, Tree), es: seq<(Text, Tree)>)
    requires SortedTree(e.1) && ValuesSorted(es)
    ensures ValuesSorted(Insert(e, es))
  {
    hide SortedTree;
    if es != [] && !Less(e.0, es[0].0) { InsertValues(e, es[1..]); }
  }

  lemma {:induction false} SortValues(es: seq<(Text, Tree)>)
    requires ValuesSorted(es)
    ensures ValuesSorted(Sort(es))
  {
    hide SortedTree, Insert;
    if es != [] {
      SortValues(es[1..]);
      assert es[0] in es;
      InsertValues(es[0], Sort(es[1..]));
    }
  }

  /** Sorting the entries of every object keeps the value. */
  lemma {:induction false} NormKeepsValue(v: Js)
    requires Printable(v) && WellFormed(v)
    ensures Value(v) == ToJson(Norm(v)) && SortedTree(Norm(v))
    decreases v, 1
  {
    hide Sort, SortedKeys;
    match v
    case Arr(items) => NormItemsKeep(items);
    case Obj(entries) =>
      NormEntriesKeep(entries);
      var es := NormEntries(entries);
      FieldsSort(es);
      SortSorts(es);
      SortValues(es);
      assert forall i :: 0 <= i < |Sort(es)| ==> Sort(es)[i] in Sort(es);
    case _ =>
  }

  lemma {:induction false} NormItemsKeep(items: seq<Js>)
    requires forall i :: 0 <= i < |items| ==> Printable(items[i]) && WellFormed(items[i])
    ensures ValueItems(items) == ToItems(NormItems(items))
    ensures forall i :: 0 <= i < |NormItems(items)| ==> SortedTree(NormItems(items)[i])
    decreases items, 0
  {
    hide Printable, WellFormed, SortedTree, Norm, Value, ToJson;
    if items != [] {
      NormKeepsValue(items[0]);
      NormItemsKeep(items[1..]);
      assert ([Norm(items[0])] + NormItems(items[1..]))[1..] == NormItems(items[1..]);
    }
  }

  lemma {:induction false} NormEntriesKeep(entries: seq<(Text, Js)>)
    requires forall i :: 0 <= i < |entries| ==> entries[i].1.Undefined? || Printable(entries[i].1)
    requires DistinctKeys(entries) && forall i :: 0 <= i < |entries| ==> WellFormed(entries[i].1)
    ensures ValueFields(entries) == ToFields(NormEntries(entries))
    ensures DistinctKeys(NormEntries(entries)) && Keys(NormEntries(entries)) <= Keys(entries)
    ensures ValuesSorted(NormEntries(entries))
    decreases entries, 0
  {
    hide Printable, WellFormed, SortedTree, Norm, Value, ToJson;
    if entries != [] {
      assert entries decreases to entries[0];
      NormEntriesKeep(entries[1..]);
      DistinctRest(entries);
      if !entries[0].1.Undefined? {
        NormKeepsValue(entries[0].1);
        var rest := NormEntries(entries[1..]);
        var head := (entries[0].0, Norm(entries[0].1));
        assert ([head] + rest)[1..] == rest;
        DistinctCons(head, rest);
      }
    }
  }

  lemma DistinctRest<T>(es: seq<(Text, T)>)
    requires es != [] && DistinctKeys(es)
    ensures DistinctKeys(es[1..]) && es[0].0 !in Keys(es[1..]) && Keys(es) == Keys(es[1..]) + {es[0].0}
  {
    assert es == [es[0]] + es[1..];
    assert forall i :: 0 <= i < |es[1..]| ==> es[1..][i].0 == es[i + 1].0;
  }

  lemma DistinctCons<T>(e: (Text, T), es: seq<(Text, T)>)
    requires DistinctKeys(es) && e.0 !in Keys(es)
    ensures DistinctKeys([e] + es) && Keys([e] + es) == Keys(es) + {e.0}
  {
  }

  /** A sorted tree is determined by the value it stands for. */
  lemma {:induction false} SortedTreeUnique(t: Tree, u: Tree)
    requires SortedTree(t) && SortedTree(u) && ToJson(t) == ToJson(u)
    ensures t == u
    decreases t, 1
  {
    hide ToItems, ToFields, SortedKeys;
    match t
    case TArr(items) => SortedItemsUnique(items, u.items);
    case TObj(entries) => SortedEntriesUnique(entries, u.entries);
    case _ =>
  }

  lemma {:induction false} SortedItemsUnique(items: seq<Tree>, others: seq<Tree>)
    requires forall i :: 0 <= i < |items| ==> SortedTree(items[i])
    requires forall i :: 0 <= i < |others| ==> SortedTree(others[i])
    requires ToItems(items) == ToItems(others)
    ensures items == others
    decreases items, 0
  {
    hide SortedTree, ToJson;
    if items != [] && others != [] {
      assert ToItems(items)[0] == ToItems(others)[0];
      assert ToItems(items)[1..] == ToItems(items[1..]) && ToItems(others)[1..] == ToItems(others[1..]);
      SortedTreeUnique(items[0], others[0]);
      SortedItemsUnique(items[1..], others[1..]);
      assert items == [items[0]] + items[1..] && others == [others[0]] + others[1..];
    }
  }

  lemma {:induction false} SortedEntriesUnique(es: seq<(Text, Tree)>, fs: seq<(Text, Tree)>)
    requires SortedKeys(es) && (forall i :: 0 <= i < |es| ==> SortedTree(es[i].1))
    requires SortedKeys(fs) && (forall i :: 0 <= i < |fs| ==> SortedTree(fs[i].1))
    requires ToFields(es) == ToFields(fs)
    ensures es == fs
    decreases es, 0
  {
    hide SortedTree, ToJson, SortedKeys, ToFields, Keys;
    FieldKeys(es);
    FieldKeys(fs);
    if es == [] || fs == [] {
      NoKeys(es);
      NoKeys(fs);
    } else {
      assert es decreases to es[0];
      SameFirstKey(es, fs);
      FieldsSplit(es);
      FieldsSplit(fs);
      SortedTreeUnique(es[0].1, fs[0].1);
      assert ToFields(es[1..]) == ToFields(es) - {es[0].0} && ToFields(fs[1..]) == ToFields(fs) - {fs[0].0};
      SortedRest(es);
      SortedRest(fs);
      SortedEntriesUnique(es[1..], fs[1..]);
      assert es == [es[0]] + es[1..] && fs == [fs[0]] + fs[1..];
    }
  }

  lemma NoKeys<T>(es: seq<(Text, T)>)
    ensures Keys(es) == {} <==> es == []
  {
    if es != [] { assert es[0].0 in Keys(es); }
  }

  lemma SameFirstKey<T>(es: seq<(Text, T)>, fs: seq<(Text, T)>)
    requires es != [] && fs != [] && SortedKeys(es) && SortedKeys(fs) && Keys(es) == Keys(fs)
    ensures es[0].0 == fs[0].0
  {
    SortedRest(es);
    SortedRest(fs);
    assert es[0].0 in Keys(fs) && fs[0].0 in Keys(es);
    if es[0].0 != fs[0].0 {
      Transitive(es[0].0, fs[0].0, es[0].0);
      Irreflexive(es[0].0);
    }
  }

  lemma FieldsSplit(es: seq<(Text, Tree)>)
    requires es != [] && SortedKeys(es)
    ensures ToFields(es)[es[0].0] == ToJson(es[0].1)
    ensures ToFields(es) - {es[0].0} == ToFields(es[1..])
  {
    hide ToJson;
    SortedRest(es);
    FieldKeys(es[1..]);
  }

  // ---- the theorem, and the seal ----

  /**
   * Two values print the same text exactly when they are the same value: the
   * order of entries and absent fields do not matter, and nothing else is lost.
   */
  lemma CanonicalIsExact(v: Js, w: Js)
    requires WellFormed(v) && WellFormed(w) && Printable(v) && Printable(w)
    ensures Canonical(v) == Canonical(w) <==> Value(v) == Value(w)
  {
    hide Print, Norm, Value, ToJson, SortedTree, WellFormed, Printable, Canonical;
    CanonicalIsPrint(v);
    CanonicalIsPrint(w);
    NormKeepsValue(v);
    NormKeepsValue(w);
    if Canonical(v) == Canonical(w) {
      assert Print(Norm(v)) + [] == Print(Norm(w)) + [];
      PrintUnique(Norm(v), [], Norm(w), []);
    }
    if Value(v) == Value(w) { SortedTreeUnique(Norm(v), Norm(w)); }
  }

  /** A keyed digest, taken as an injective function of the domain and the text. */
  datatype Mac = Mac(domain: Text, digested: Text)

  datatype Report = Report(unsigned: Js, seal: Mac)

  const REPORT_DOMAIN: Text := [114, 101, 112, 111, 114, 116]

  const REPORT_MAX_BYTES := 64 * 1024

  /** The schema, the redactor and the byte count around a seal, whatever they do. */
  datatype Library = Library(parse: Js -> Option<Js>, redact: Js -> Js, size: (Js, Mac) -> nat)

  /** What the schema lets through has no field twice. */
  ghost predicate Sound(lib: Library)
  {
    forall v :: lib.parse(v).Some? ==> WellFormed(lib.parse(v).value)
  }

  /** Redacted, parsed, sealed, and refused when too large. */
  function Seal(lib: Library, v: Js): Option<Report>
  {
    match lib.parse(lib.redact(v))
    case None => None
    case Some(unsigned) =>
      match Canonical(unsigned)
      case None => None
      case Some(text) =>
        var seal := Mac(REPORT_DOMAIN, text);
        if lib.size(unsigned, seal) > REPORT_MAX_BYTES then None else Some(Report(unsigned, seal))
  }

  /** The digest is recomputed in the domain the seal names, and redaction must find nothing more to hide. */
  function Verify(lib: Library, r: Report): Option<Report>
  {
    match lib.parse(r.unsigned)
    case None => None
    case Some(unsigned) =>
      match Canonical(unsigned)
      case None => None
      case Some(text) =>
        if r.seal != Mac(r.seal.domain, text) || lib.size(unsigned, r.seal) > REPORT_MAX_BYTES then None
        else
          match lib.parse(lib.redact(unsigned))
          case None => None
          case Some(redacted) => if Canonical(redacted) != Some(text) then None else Some(Report(unsigned, r.seal))
  }

  /** Both can be printed, and they are the same JSON value. */
  predicate SameValue(v: Js, w: Js)
  {
    Printable(v) && Printable(w) && Value(v) == Value(w)
  }

  /** Redaction leaves the value of the report as it is. */
  ghost predicate Redacted(lib: Library, v: Js)
  {
    var redacted := lib.parse(lib.redact(v));
    redacted.Some? && SameValue(v, redacted.value)
  }

  /** A seal fits a report exactly if that parses to the sealed value, small enough and with nothing to redact. */
  lemma SealBindsValue(lib: Library, v: Js, x: Js)
    requires Sound(lib) && Seal(lib, v).Some?
    ensures var r := Seal(lib, v).value;
            Verify(lib, Report(x, r.seal)).Some? <==>
            var u := lib.parse(x);
            && u.Some? && SameValue(r.unsigned, u.value)
            && lib.size(u.value, r.seal) <= REPORT_MAX_BYTES && Redacted(lib, u.value)
  {
    hide Value, Canonical, WellFormed, Printable, SameValue;
    var r, u := Seal(lib, v).value, lib.parse(x);
    assert lib.parse(lib.redact(v)) == Some(r.unsigned);
    if u.Some? {
      SameText(r.unsigned, u.value);
      var redacted := lib.parse(lib.redact(u.value));
      if redacted.Some? && Canonical(u.value).Some? { SameText(u.value, redacted.value); }
    }
  }

  lemma SameText(v: Js, w: Js)
    requires WellFormed(v) && WellFormed(w) && Canonical(v).Some?
    ensures Canonical(w) == Canonical(v) <==> SameValue(v, w)
  {
    hide Value, Canonical, WellFormed, Printable, Print, Norm;
    CanonicalIsPrint(v);
    CanonicalIsPrint(w);
    if Printable(w) { CanonicalIsExact(v, w); }
  }

  /** A report is refused exactly if the schema refuses it redacted, it cannot be printed, or it is too large. */
  lemma SealRefuses(lib: Library, v: Js)
    ensures Seal(lib, v).Some? <==>
              var u := lib.parse(lib.redact(v));
              && u.Some? && Printable(u.value)
              && lib.size(u.value, Mac(REPORT_DOMAIN, Print(Norm(u.value)))) <= REPORT_MAX_BYTES
  {
    hide Canonical, Printable, Print, Norm;
    var u := lib.parse(lib.redact(v));
    if u.Some? { CanonicalIsPrint(u.value); }
  }
}
