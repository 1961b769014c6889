/** The dotted-path lookup `_extract_value` of src/data/ingestors/http_api.py. */
module JsonPath {
  import opened Wrappers

  /** JSON values; Python's `None` and JSON's `null` are the same thing. */
  datatype Json =
    | Null
    | Bool(b: bool)
    | Number(r: real)
    | Text(s: string)
    | List(items: seq<Json>)
    | Object(fields: map<string, Json>)

  // ----- Python's `str.split('.')` and `int` -----

  function Split(p: string): (keys: seq<string>)
    ensures |keys| >= 1
  {
    if p == "" then [""]
    else
      var keys := Split(p[1..]);
      if p[0] == '.' then [""] + keys else Grow(p[0], keys)
  }

  /** Puts a character in front of the first key. */
  function Grow(c: char, keys: seq<string>): (r: seq<string>)
    requires |keys| >= 1
    ensures |r| == |keys|
  {
    [[c] + keys[0]] + keys[1..]
  }

  predicate IsSpace(c: char) { '\t' <= c <= '\r' || 28 as char <= c <= ' ' }

  predicate IsDigit(c: char) { '0' <= c <= '9' }

  function Strip(s: string): string {
    if s != "" && IsSpace(s[0]) then Strip(s[1..])
    else if s != "" && IsSpace(s[|s| - 1]) then Strip(s[..|s| - 1])
    else s
  }

  /** Decimal digits, with single underscores between digits allowed. */
  function ParseDigits(s: string): Option<nat> {
    if s == "" || !IsDigit(s[|s| - 1]) then None
    else
      var digit := (s[|s| - 1] - '0') as nat;
      if |s| == 1 then Some(digit)
      else
        match ParseDigits(if s[|s| - 2] == '_' then s[..|s| - 2] else s[..|s| - 1])
        case None => None
        case Some(n) => Some(10 * n + digit)
  }

  function ParseInt(s: string): Option<int> {
    var t := Strip(s);
    if t == "" then None
    else
      match ParseDigits(if t[0] == '-' || t[0] == '+' then t[1..] else t)
      case None => None
      case Some(n) => Some(if t[0] == '-' then 0 - n as int else n as int)
  }

  /** `items[i]` as Python evaluates it: negative indices count from the end. */
  function ItemAt(items: seq<Json>, i: int): Option<Json> {
    if 0 <= i < |items| then Some(items[i])
    else if -|items| <= i < 0 then Some(items[|items| + i])
    else None
  }

  // ----- the lookup -----

  /** One round of the loop. */
  function Enter(current: Json, key: string): Json {
    match current
    case Object(fields) => if key in fields then fields[key] else Null
    case List(items) =>
      (match ParseInt(key)
       case None => Null
       case Some(i) =>
         match ItemAt(items, i)
         case None => Null
         case Some(item) => item)
    case _ => Null
  }

  function Walk(current: Json, keys: seq<string>): Json
    decreases |keys|
  {
    if keys == [] then current else Walk(Enter(current, keys[0]), keys[1..])
  }

  function Lookup(json: Json, path: string): Json {
    if path == "" then Null else Walk(json, Split(path))
  }

  lemma {:induction false} NothingInNull(keys: seq<string>)
    ensures Walk(Null, keys) == Null
  {
    if keys != [] {
      NothingInNull(keys[1..]);
    }
  }

  method ExtractValue(json: Json, path: string) returns (value: Json)
    ensures value == Lookup(json, path)
  {
    if path == "" {
      return Null;
    }
    var keys := Split(path);
    var current := json;
    for i := 0 to |keys|
      invariant Walk(current, keys[i..]) == Walk(json, keys)
    {
      var key := keys[i];
      assert keys[i..][1..] == keys[i + 1..];
      NothingInNull(keys[i + 1..]);
      if current.Object? {
        current := if key in current.fields then current.fields[key] else Null;
      } else if current.List? {
        var index := ParseInt(key);
        if index.None? {
          return Null;
        }
        var item := ItemAt(current.items, index.value);
        if item.None? {
          return Null;
        }
        current := item.value;
      } else {
        return Null;
      }
    }
    return current;
  }

  // ----- composition -----

  lemma GrowAppend(c: char, a: seq<string>, b: seq<string>)
    requires |a| >= 1
    ensures Grow(c, a + b) == Grow(c, a) + b
  {
    assert (a + b)[1..] == a[1..] + b;
  }

  lemma {:induction false} SplitAppend(p: string, q: string)
    ensures Split(p + "." + q) == Split(p) + Split(q)
  {
    var s := p + "." + q;
    if p == "" {
      assert s[1..] == q;
    } else {
      SplitAppend(p[1..], q);
      assert s[1..] == p[1..] + "." + q && s[0] == p[0];
      if p[0] == '.' {
        assert [""] + (Split(p[1..]) + Split(q)) == ([""] + Split(p[1..])) + Split(q);
      } else {
        GrowAppend(p[0], Split(p[1..]), Split(q));
      }
    }
  }

  lemma {:induction false} WalkAppend(current: Json, ks: seq<string>, ls: seq<string>)
    ensures Walk(current, ks + ls) == Walk(Walk(current, ks), ls)
    decreases |ks|
  {
    if ks == [] {
      assert ks + ls == ls;
    } else {
      WalkAppend(Enter(current, ks[0]), ks[1..], ls);
      assert (ks + ls)[1..] == ks[1..] + ls;
    }
  }

  /** Looking up a path and then another is looking up the two joined by a dot. */
  lemma LookupComposes(json: Json, p: string, q: string)
    requires p != "" && q != ""
    ensures Lookup(json, p + "." + q) == Lookup(Lookup(json, p), q)
  {
    SplitAppend(p, q);
    WalkAppend(json, Split(p), Split(q));
  }

  // ----- addresses -----

  /** One step down from a node to a child. */
  datatype Hop = Key(name: string) | Index(i: nat)

  function Child(j: Json, hop: Hop): Option<Json> {
    match (j, hop)
    case (Object(fields), Key(name)) => if name in fields then Some(fields[name]) else None
    case (List(items), Index(i)) => if i < |items| then Some(items[i]) else None
    case _ => None
  }

  /** The node at an address, if there is one. */
  function Node(j: Json, address: seq<Hop>): Option<Json> {
    if address == [] then Some(j)
    else
      match Child(j, address[0])
      case None => None
      case Some(child) => Node(child, address[1..])
  }

  function Decimal(n: nat): (s: string)
    ensures s != "" && forall i | 0 <= i < |s| :: IsDigit(s[i])
  {
    var digit := [(n % 10) as char + '0'];
    if n < 10 then digit else Decimal(n / 10) + digit
  }

  function Rendered(hop: Hop): string {
    match hop
    case Key(name) => name
    case Index(i) => Decimal(i)
  }

  /** The address written as a dotted path. */
  function Path(address: seq<Hop>): string {
    if address == [] then ""
    else if |address| == 1 then Rendered(address[0])
    else Rendered(address[0]) + "." + Path(address[1..])
  }

  lemma {:induction false} DecimalParses(n: nat)
    ensures ParseDigits(Decimal(n)) == Some(n)
  {
    if n >= 10 {
      var s := Decimal(n);
      DecimalParses(n / 10);
      assert s[..|s| - 1] == Decimal(n / 10);
      assert IsDigit(s[|s| - 2]);
    }
  }

  lemma {:induction false} DecimalIsInt(n: nat)
    ensures ParseInt(Decimal(n)) == Some(n)
  {
    DecimalParses(n);
    var s := Decimal(n);
    assert IsDigit(s[0]) && IsDigit(s[|s| - 1]);
  }

  lemma {:induction false} SplitWithoutDots(k: string)
    requires '.' !in k
    ensures Split(k) == [k]
  {
    if k != "" {
      assert k[0] in k && forall c | c in k[1..] :: c in k;
      SplitWithoutDots(k[1..]);
      assert [k[0]] + k[1..] == k;
    }
  }

  predicate DotFree(address: seq<Hop>) {
    forall i | 0 <= i < |address| && address[i].Key? :: '.' !in address[i].name
  }

  lemma HopSplits(hop: Hop)
    requires hop.Key? ==> '.' !in hop.name
    ensures Split(Rendered(hop)) == [Rendered(hop)]
  {
    if hop.Index? {
      var s := Decimal(hop.i);
      assert forall i | 0 <= i < |s| :: IsDigit(s[i]);
    }
    SplitWithoutDots(Rendered(hop));
  }

  lemma {:induction false} WalkAlong(j: Json, address: seq<Hop>)
    requires address != [] && DotFree(address) && Node(j, address).Some?
    ensures Walk(j, Split(Path(address))) == Node(j, address).value
  {
    var hop, rest := address[0], address[1..];
    HopSplits(hop);
    if hop.Index? {
      DecimalIsInt(hop.i);
    }
    var child := Child(j, hop).value;
    assert Walk(j, [Rendered(hop)]) == child;
    if rest != [] {
      WalkAlong(child, rest);
      SplitAppend(Rendered(hop), Path(rest));
      WalkAppend(j, [Rendered(hop)], Split(Path(rest)));
    }
  }

  /** Every node of a JSON value is found under its address, written as a dotted path, as long
      as the keys on the way contain no dots.  The only exceptions are the root and a child of
      the root under the empty key: their path is empty, and the lookup gives up. */
  lemma AddressesAreFound(j: Json, address: seq<Hop>)
    requires DotFree(address) && Node(j, address).Some?
    ensures Lookup(j, Path(address)) ==
      if address == [] || address == [Key("")] then Null else Node(j, address).value
  {
    if address != [] {
      WalkAlong(j, address);
    }
  }

  // ----- lookups that miss -----

  /** One more key under an address. */
  function Under(address: seq<Hop>, key: string): string {
    if address == [] then key else Path(address) + "." + key
  }

  lemma {:induction false} WalkUnder(j: Json, address: seq<Hop>, key: string)
    requires DotFree(address) && Node(j, address).Some? && '.' !in key
    ensures Walk(j, Split(Under(address, key))) == Enter(Node(j, address).value, key)
  {
    SplitWithoutDots(key);
    assert Walk(Node(j, address).value, [key]) == Enter(Node(j, address).value, key) by {
      assert [key][1..] == [];
    }
    if address != [] {
      WalkAlong(j, address);
      SplitAppend(Path(address), key);
      WalkAppend(j, Split(Path(address)), [key]);
    }
  }

  /** A node has nothing under a key: an object without that field, a list for which the key is
      no integer or one out of range, or no container at all. */
  predicate Misses(node: Json, key: string) {
    match node
    case Object(fields) => key !in fields
    case List(items) =>
      var i := ParseInt(key);
      i.None? || i.value >= |items| || i.value < -|items|
    case _ => true
  }

  /** Whatever is not there is None, at any depth, and so is everything further down. */
  lemma {:induction false} MissesAreNull(j: Json, address: seq<Hop>, key: string, more: string)
    requires DotFree(address) && Node(j, address).Some? && '.' !in key
    requires Misses(Node(j, address).value, key)
    ensures Lookup(j, Under(address, key)) == Null
    ensures Lookup(j, Under(address, key) + "." + more) == Null
  {
    WalkUnder(j, address, key);
    SplitAppend(Under(address, key), more);
    WalkAppend(j, Split(Under(address, key)), Split(more));
    NothingInNull(Split(more));
  }

  // ----- what counts as an integer -----

  predicate Blank(s: string) {
    forall i | 0 <= i < |s| :: IsSpace(s[i])
  }

  lemma {:induction false} StripLeft(u: string, s: string)
    requires Blank(u)
    ensures Strip(u + s) == Strip(s)
  {
    if u == "" {
      assert u + s == s;
    } else {
      assert (u + s)[1..] == u[1..] + s && (u + s)[0] == u[0];
      StripLeft(u[1..], s);
    }
  }

  lemma {:induction false} StripRight(s: string, w: string)
    requires s != "" && !IsSpace(s[0]) && !IsSpace(s[|s| - 1]) && Blank(w)
    ensures Strip(s + w) == s
  {
    var all := s + w;
    assert all[0] == s[0];
    if w == "" {
      assert all == s;
    } else {
      assert all[|all| - 1] == w[|w| - 1];
      assert all[..|all| - 1] == s + w[..|w| - 1];
      StripRight(s, w[..|w| - 1]);
    }
  }

  /** Decimal numerals are integers, with a sign or without, with white space around them or
      not. */
  lemma {:induction false} NumeralsAreInts(u: string, sign: string, n: nat, w: string)
    requires Blank(u) && Blank(w) && (sign == "" || sign == "+" || sign == "-")
    ensures ParseInt(u + (sign + Decimal(n)) + w) == Some(if sign == "-" then -(n as int) else n as int)
  {
    var d := Decimal(n);
    var t := sign + d;
    assert IsDigit(d[0]) && IsDigit(d[|d| - 1]);
    assert t[|t| - 1] == d[|d| - 1] && t[0] == if sign == "" then d[0] else sign[0];
    assert u + t + w == u + (t + w);
    StripLeft(u, t + w);
    StripRight(t, w);
    DecimalParses(n);
    assert sign == "" ==> t == d;
    assert sign != "" ==> t[1..] == d;
  }

  lemma {:induction false} StripKeeps(s: string, c: char)
    requires c in s && !IsSpace(c)
    ensures c in Strip(s)
    decreases |s|
  {
    if s != "" && IsSpace(s[0]) {
      assert s == [s[0]] + s[1..];
      StripKeeps(s[1..], c);
    } else if s != "" && IsSpace(s[|s| - 1]) {
      assert s == s[..|s| - 1] + [s[|s| - 1]];
      StripKeeps(s[..|s| - 1], c);
    }
  }

  lemma {:induction false} DigitsOnly(s: string, c: char)
    requires c in s && !IsDigit(c) && c != '_'
    ensures ParseDigits(s) == None
    decreases |s|
  {
    if s != "" && IsDigit(s[|s| - 1]) && |s| > 1 {
      var skip := if s[|s| - 2] == '_' then 2 else 1;
      var k :| 0 <= k < |s| && s[k] == c;
      assert c in s[..|s| - skip] by {
        assert s[..|s| - skip][k] == c;
      }
      DigitsOnly(s[..|s| - skip], c);
    }
  }

  /** Text with any other character is none, wherever it stands; nor is text without a digit. */
  lemma {:induction false} OtherTextIsNoInt(s: string, c: char)
    requires c in s && !IsDigit(c) && !IsSpace(c) && c != '_' && c != '+' && c != '-'
    ensures ParseInt(s) == None
  {
    StripKeeps(s, c);
    var t := Strip(s);
    var digits := if t[0] == '-' || t[0] == '+' then t[1..] else t;
    assert c in digits by {
      var k :| 0 <= k < |t| && t[k] == c;
      assert digits[if digits == t then k else k - 1] == c;
    }
    DigitsOnly(digits, c);
  }

  lemma {:induction false} BlankIsNoInt(s: string)
    requires Blank(s)
    ensures ParseInt(s) == None
  {
    StripLeft(s, "");
    assert s + "" == s;
  }

  /** An underscore joins two digits, and nothing else. */
  lemma {:induction false} UnderscoresJoinDigits(n: nat, d: nat)
    requires d < 10
    ensures ParseInt(Decimal(n) + "_" + Decimal(d)) == Some(10 * n + d)
    ensures ParseInt("_" + Decimal(n)) == None && ParseInt(Decimal(n) + "_") == None
  {
    var a, b := Decimal(n), Decimal(d);
    DecimalParses(n);
    var s := a + "_" + b;
    assert |b| == 1 && IsDigit(b[0]) && IsDigit(a[0]) && s[0] == a[0];
    assert s[|s| - 1] == b[0] && s[|s| - 2] == '_' && s[..|s| - 2] == a;
    assert Strip(s) == s;
    LeadingUnderscore(a);
    assert ("_" + a)[0] == '_' && (a + "_")[|a|] == '_' && (a + "_")[0] == a[0];
    assert IsDigit(a[|a| - 1]) && ("_" + a)[|a|] == a[|a| - 1];
    assert Strip("_" + a) == "_" + a && Strip(a + "_") == a + "_";
  }

  lemma {:induction false} LeadingUnderscore(a: string)
    requires forall i | 0 <= i < |a| :: IsDigit(a[i])
    ensures ParseDigits("_" + a) == None
  {
    var s := "_" + a;
    if |a| == 1 {
      assert s[..|s| - 2] == "" && s[|s| - 2] == '_';
    } else if |a| > 1 {
      assert s[..|s| - 1] == "_" + a[..|a| - 1] && s[|s| - 2] == a[|a| - 2];
      LeadingUnderscore(a[..|a| - 1]);
    }
  }

  /** Negative indices count from the end of a list, at any depth, as far as it goes. */
  lemma {:induction false} NegativeIndicesCountFromTheEnd(j: Json, address: seq<Hop>, k: nat)
    requires DotFree(address) && Node(j, address).Some? && Node(j, address).value.List? && k >= 1
    ensures var items := Node(j, address).value.items;
      Lookup(j, Under(address, "-" + Decimal(k))) == if k <= |items| then items[|items| - k] else Null
  {
    var d := Decimal(k);
    var key := "-" + d;
    assert forall i | 0 <= i < |key| :: key[i] == '-' || IsDigit(key[i]);
    NumeralsAreInts("", "-", k, "");
    assert "" + ("-" + d) + "" == key;
    WalkUnder(j, address, key);
  }

  /** Keys with a dot are out of reach: no path can tell whether an object has such a field. */
  lemma DottedKeysAreMissed(fields: map<string, Json>, key: string, v: Json, path: string)
    requires '.' in key
    ensures Lookup(Object(fields[key := v]), path) == Lookup(Object(fields - {key}), path)
  {
    if path != "" {
      var keys := Split(path);
      FirstPartIsDotFree(path);
      assert Enter(Object(fields[key := v]), keys[0]) == Enter(Object(fields - {key}), keys[0]);
    }
  }

  lemma {:induction false} FirstPartIsDotFree(p: string)
    ensures '.' !in Split(p)[0]
  {
    if p != "" && p[0] != '.' {
      FirstPartIsDotFree(p[1..]);
    }
  }
}
