/**
 * The canonical JSON text that goes into the Noise handshake prologue (src/noise.rs): sorted keys, no
 * white space, and only the necessary escapes. Two prologues are equal exactly when they were built
 * from the same negotiation.
 */
module CanonicalJson {
  import opened Wrappers
  import opened JsonText
  import J = Json

  /** A JSON value whose objects remember the order their keys were inserted in. */
  datatype Tree =
    | Null
    | Bool(flag: bool)
    | Number(token: string)
    | String(text: string)
    | Array(items: seq<Tree>)
    | Object(entries: seq<Entry>)

  datatype Entry = Entry(key: string, value: Tree)

  predicate IsNumberChar(c: char)
  {
    '0' <= c <= '9' || c in "-+.eE"
  }

  predicate IsToken(token: string)
  {
    token != [] && forall c :: c in token ==> IsNumberChar(c)
  }

  predicate HasKey(entries: seq<Entry>, key: string)
  {
    exists e :: e in entries && e.key == key
  }

  predicate DistinctKeys(entries: seq<Entry>)
  {
    entries == [] || (!HasKey(entries[1..], entries[0].key) && DistinctKeys(entries[1..]))
  }

  /** What a parsed JSON value always is: keys filed once, numbers printed as number tokens. */
  predicate Valid(value: Tree)
    decreases value, 1
  {
    match value
    case Number(token) => IsToken(token)
    case Array(items) => ValidItems(items)
    case Object(entries) => DistinctKeys(entries) && ValidEntries(entries)
    case _ => true
  }

  predicate ValidItems(items: seq<Tree>)
    decreases items, 0
  {
    items == [] || (Valid(items[0]) && ValidItems(items[1..]))
  }

  predicate ValidEntries(entries: seq<Entry>)
    decreases entries, 0
  {
    entries == [] || (Valid(entries[0].value) && ValidEntries(entries[1..]))
  }

  // ---------------------------------------------------------------------------------------------
  // The value a tree stands for
  // ---------------------------------------------------------------------------------------------

  function Meaning(value: Tree): J.Json
    decreases value, 1
  {
    match value
    case Null => J.Null
    case Bool(flag) => J.Bool(flag)
    case Number(token) => J.Number(token)
    case String(text) => J.String(text)
    case Array(items) => J.Array(MeaningItems(items))
    case Object(entries) => J.Object(MeaningFields(entries))
  }

  function MeaningItems(items: seq<Tree>): (r: seq<J.Json>)
    decreases items, 0
  {
    if items == [] then [] else [Meaning(items[0])] + MeaningItems(items[1..])
  }

  function MeaningFields(entries: seq<Entry>): (r: J.Fields)
    ensures forall k :: k in r <==> HasKey(entries, k)
    decreases entries, 0
  {
    if entries == [] then map[]
    else
      assert entries == [entries[0]] + entries[1..];
      MeaningFields(entries[1..])[entries[0].key := Meaning(entries[0].value)]
  }

  // ---------------------------------------------------------------------------------------------
  // Sorting
  // ---------------------------------------------------------------------------------------------

  /** The order of the keys: by character, which is the order of their UTF-8 bytes. */
  predicate Before(a: string, b: string)
  {
    b != [] && (a == [] || a[0] < b[0] || (a[0] == b[0] && Before(a[1..], b[1..])))
  }

  lemma {:induction false} BeforeIsStrict(a: string, b: string)
    ensures !(Before(a, b) && Before(b, a))
    ensures a == b || Before(a, b) || Before(b, a)
    ensures !Before(a, a)
  {
    if a != [] && b != [] {
      BeforeIsStrict(a[1..], b[1..]);
    }
    if a != [] {
      BeforeIsStrict(a[1..], a[1..]);
    }
    if a != [] && b != [] && a[0] == b[0] && a[1..] == b[1..] {
      assert a == [a[0]] + a[1..] && b == [b[0]] + b[1..];
    }
  }

  lemma {:induction false} BeforeChains(a: string, b: string, c: string)
    requires Before(a, b) && Before(b, c)
    ensures Before(a, c)
  {
    if a != [] && a[0] == b[0] == c[0] {
      BeforeChains(a[1..], b[1..], c[1..]);
    }
  }

  function Insert(entry: Entry, sorted: seq<Entry>): (r: seq<Entry>)
    ensures forall e :: e in r <==> e == entry || e in sorted
  {
    if sorted == [] || Before(entry.key, sorted[0].key) then [entry] + sorted
    else
      assert sorted == [sorted[0]] + sorted[1..];
      [sorted[0]] + Insert(entry, sorted[1..])
  }

  /** The entries as an ordered map holds them. */
  function Sort(entries: seq<Entry>): (r: seq<Entry>)
    ensures forall e :: e in r <==> e in entries
  {
    if entries == [] then []
    else
      assert entries == [entries[0]] + entries[1..];
      Insert(entries[0], Sort(entries[1..]))
  }

  /** The tree with the keys of every object in order. */
  function Normal(value: Tree): Tree
    decreases value, 1
  {
    match value
    case Array(items) => Array(NormalItems(items))
    case Object(entries) => Object(NormalEntries(entries))
    case _ => value
  }

  function NormalItems(items: seq<Tree>): seq<Tree>
    decreases items, 0
  {
    if items == [] then [] else [Normal(items[0])] + NormalItems(items[1..])
  }

  function NormalEntries(entries: seq<Entry>): seq<Entry>
    decreases entries, 0
  {
    if entries == [] then []
    else Insert(Entry(entries[0].key, Normal(entries[0].value)), NormalEntries(entries[1..]))
  }

  // ---------------------------------------------------------------------------------------------
  // Writing
  // ---------------------------------------------------------------------------------------------

  function Write(value: Tree): string
    decreases value, 1
  {
    match value
    case Null => "null"
    case Bool(flag) => if flag then "true" else "false"
    case Number(token) => token
    case String(text) => Quote(text)
    case Array(items) => "[" + WriteItems(items) + "]"
    case Object(entries) => "{" + WriteEntries(entries) + "}"
  }

  function WriteItems(items: seq<Tree>): string
    decreases items, 0
  {
    if items == [] then []
    else if items[1..] == [] then Write(items[0])
    else Write(items[0]) + "," + WriteItems(items[1..])
  }

  function WriteEntries(entries: seq<Entry>): string
    decreases entries, 0
  {
    if entries == [] then []
    else
      var first := Quote(entries[0].key) + ":" + Write(entries[0].value);
      if entries[1..] == [] then first else first + "," + WriteEntries(entries[1..])
  }

  /** The canonical text of a value. */
  function Canonical(value: Tree): string
  {
    Write(Normal(value))
  }

  // ---------------------------------------------------------------------------------------------
  // Reading
  // ---------------------------------------------------------------------------------------------

  type Read<T> = Option<(T, string)>

  function TokenLength(t: string): (n: nat)
    ensures n <= |t|
  {
    if t == [] || !IsNumberChar(t[0]) then 0 else 1 + TokenLength(t[1..])
  }

  /** The JSON value at the start of a text with no white space, and what follows it. */
  function ReadValue(t: string): (r: Read<Tree>)
    ensures r.Some? ==> |r.value.1| < |t|
    decreases |t|, 1
  {
    if t == [] then None
    else if "null" <= t then Some((Null, t[4..]))
    else if "true" <= t then Some((Bool(true), t[4..]))
    else if "false" <= t then Some((Bool(false), t[5..]))
    else if t[0] == '"' then
      match ReadString(t)
      case None => None
      case Some(read) => Some((String(read.0), read.1))
    else if t[0] == '[' then
      if "[]" <= t then Some((Array([]), t[2..]))
      else
        match ReadItems(t[1..])
        case None => None
        case Some(read) => Some((Array(read.0), read.1))
    else if t[0] == '{' then
      if "{}" <= t then Some((Object([]), t[2..]))
      else
        match ReadEntries(t[1..])
        case None => None
        case Some(read) => Some((Object(read.0), read.1))
    else
      var n := TokenLength(t);
      if n == 0 then None else Some((Number(t[..n]), t[n..]))
  }

  /** One or more values, up to the closing bracket. */
  function ReadItems(t: string): (r: Read<seq<Tree>>)
    ensures r.Some? ==> |r.value.1| < |t|
    decreases |t|, 2
  {
    match ReadValue(t)
    case None => None
    case Some(first) =>
      if "]" <= first.1 then Some(([first.0], first.1[1..]))
      else if "," <= first.1 then
        match ReadItems(first.1[1..])
        case None => None
        case Some(others) => Some(([first.0] + others.0, others.1))
      else None
  }

  function ReadEntry(t: string): (r: Read<Entry>)
    ensures r.Some? ==> |r.value.1| < |t|
    decreases |t|, 2
  {
    match ReadString(t)
    case None => None
    case Some(key) =>
      if ":" <= key.1 then
        match ReadValue(key.1[1..])
        case None => None
        case Some(value) => Some((Entry(key.0, value.0), value.1))
      else None
  }

  /** One or more keys with their values, up to the closing brace. */
  function ReadEntries(t: string): (r: Read<seq<Entry>>)
    ensures r.Some? ==> |r.value.1| < |t|
    decreases |t|, 3
  {
    match ReadEntry(t)
    case None => None
    case Some(first) =>
      if "}" <= first.1 then Some(([first.0], first.1[1..]))
      else if "," <= first.1 then
        match ReadEntries(first.1[1..])
        case None => None
        case Some(others) => Some(([first.0] + others.0, others.1))
      else None
  }

  // ---------------------------------------------------------------------------------------------
  // Reading undoes writing
  // ---------------------------------------------------------------------------------------------

  predicate Delimits(rest: string)
  {
    rest == [] || !IsNumberChar(rest[0])
  }

  lemma {:induction false} TokenEnds(token: string, rest: string)
    requires (forall c :: c in token ==> IsNumberChar(c)) && Delimits(rest)
    ensures TokenLength(token + rest) == |token|
  {
    if token == [] {
      assert token + rest == rest;
    } else {
      assert token == [token[0]] + token[1..] && (token + rest)[1..] == token[1..] + rest;
      TokenEnds(token[1..], rest);
    }
  }

  lemma StartsLikeAValue(value: Tree)
    requires Valid(value)
    ensures Write(value) != [] && Write(value)[0] != ']'
  {
    hide Escape, WriteItems, WriteEntries;
    match value
    case Null => assert Write(value)[0] == 'n';
    case Bool(flag) => assert Write(value)[0] == if flag then 't' else 'f';
    case Number(token) => assert token[0] in token;
    case String(text) => assert Quote(text)[0] == '"';
    case Array(items) => assert ("[" + WriteItems(items) + "]")[0] == '[';
    case Object(entries) => assert ("{" + WriteEntries(entries) + "}")[0] == '{';
  }

  lemma ReadsToken(token: string, rest: string)
    requires IsToken(token) && Delimits(rest)
    ensures ReadValue(token + rest) == Some((Number(token), rest))
  {
    hide ReadItems, ReadEntries, ReadString;
    assert token[0] in token && (token + rest)[0] == token[0];
    TokenEnds(token, rest);
    assert (token + rest)[..|token|] == token && (token + rest)[|token|..] == rest;
  }

  lemma ReadsWord(value: Tree, rest: string)
    requires value.Null? || value.Bool?
    ensures ReadValue(Write(value) + rest) == Some((value, rest))
  {
    hide ReadItems, ReadEntries, ReadString, TokenLength;
    var t := Write(value) + rest;
    assert t[..|Write(value)|] == Write(value) && t[|Write(value)|..] == rest;
    if value == Bool(true) {
      assert t[0] == 't';
    } else if value == Bool(false) {
      assert t[0] == 'f';
    }
  }

  lemma ReadsText(text: string, rest: string)
    ensures ReadValue(Quote(text) + rest) == Some((String(text), rest))
  {
    hide ReadItems, ReadEntries, ReadString, TokenLength, Escape;
    ReadsQuoted(text, rest);
    assert (Quote(text) + rest)[0] == '"';
  }

  lemma ReadsEmpty(value: Tree, rest: string)
    requires value == Array([]) || value == Object([])
    ensures ReadValue(Write(value) + rest) == Some((value, rest))
  {
    hide ReadItems, ReadEntries, ReadString, TokenLength;
    assert Write(value) == if value.Array? then "[]" else "{}";
    var t := Write(value) + rest;
    assert t[..2] == Write(value) && t[2..] == rest;
    assert t[0] == if value.Array? then '[' else '{';
  }

  /** Enclosed items are read by what reads what follows the opening bracket. */
  lemma OpensBracket(items: seq<Tree>, inner: string, rest: string)
    requires inner != [] && inner[0] != ']' && ReadItems(inner) == Some((items, rest))
    ensures ReadValue("[" + inner) == Some((Array(items), rest))
  {
    hide ReadItems, ReadEntries, ReadString, TokenLength;
    var t := "[" + inner;
    assert t[0] == '[' && t[1] == inner[0] && t[1..] == inner;
  }

  lemma OpensBrace(entries: seq<Entry>, inner: string, rest: string)
    requires inner != [] && inner[0] != '}' && ReadEntries(inner) == Some((entries, rest))
    ensures ReadValue("{" + inner) == Some((Object(entries), rest))
  {
    hide ReadItems, ReadEntries, ReadString, TokenLength;
    var t := "{" + inner;
    assert t[0] == '{' && t[1] == inner[0] && t[1..] == inner;
  }

  /** A written value is read back whole, whatever delimiter follows. */
  lemma {:induction false} ReadsWritten(value: Tree, rest: string)
    requires Valid(value) && Delimits(rest)
    ensures ReadValue(Write(value) + rest) == Some((value, rest))
    decreases value, 1
  {
    hide ReadValue, ReadItems, ReadEntries, Quote, IsToken;
    match value
    case Null => ReadsWord(value, rest);
    case Bool(_) => ReadsWord(value, rest);
    case Number(token) => ReadsToken(token, rest);
    case String(text) => ReadsText(text, rest);
    case Array(items) =>
      if items == [] {
        ReadsEmpty(value, rest);
      } else {
        ReadsWrittenItems(items, rest);
        StartsLikeAValue(items[0]);
        OpensBracket(items, WriteItems(items) + "]" + rest, rest);
        assert Write(value) + rest == "[" + (WriteItems(items) + "]" + rest);
      }
    case Object(entries) =>
      if entries == [] {
        ReadsEmpty(value, rest);
      } else {
        ReadsWrittenEntries(entries, rest);
        StartsWithAKey(entries);
        OpensBrace(entries, WriteEntries(entries) + "}" + rest, rest);
        assert Write(value) + rest == "{" + (WriteEntries(entries) + "}" + rest);
      }
  }

  lemma StartsWithAKey(entries: seq<Entry>)
    requires entries != []
    ensures WriteEntries(entries) != [] && WriteEntries(entries)[0] == '"'
  {
    hide Escape, Write;
  }

  lemma ReadsLastItem(item: Tree, t: string, rest: string)
    requires ReadValue(t) == Some((item, "]" + rest))
    ensures ReadItems(t) == Some(([item], rest))
  {
    hide ReadValue;
    assert ("]" + rest)[1..] == rest;
  }

  lemma ReadsItemBefore(item: Tree, t: string, inner: string, others: seq<Tree>, rest: string)
    requires ReadValue(t) == Some((item, "," + inner)) && ReadItems(inner) == Some((others, rest))
    ensures ReadItems(t) == Some(([item] + others, rest))
  {
    hide ReadValue;
    assert ("," + inner)[1..] == inner && ("," + inner)[0] == ',';
  }

  lemma {:induction false} ReadsWrittenItems(items: seq<Tree>, rest: string)
    requires items != [] && ValidItems(items)
    ensures ReadItems(WriteItems(items) + "]" + rest) == Some((items, rest))
    decreases items, 0
  {
    hide ReadValue, ReadItems, Write;
    var others := items[1..];
    if others == [] {
      ReadsWritten(items[0], "]" + rest);
      ReadsLastItem(items[0], Write(items[0]) + ("]" + rest), rest);
      assert WriteItems(items) + "]" + rest == Write(items[0]) + ("]" + rest);
      assert items == [items[0]];
    } else {
      var inner := WriteItems(others) + "]" + rest;
      ReadsWritten(items[0], "," + inner);
      ReadsWrittenItems(others, rest);
      ReadsItemBefore(items[0], Write(items[0]) + ("," + inner), inner, others, rest);
      assert WriteItems(items) + "]" + rest == Write(items[0]) + ("," + inner);
      assert items == [items[0]] + others;
    }
  }

  lemma {:induction false} ReadsWrittenEntry(entry: Entry, rest: string)
    requires Valid(entry.value) && Delimits(rest)
    ensures ReadEntry(Quote(entry.key) + ":" + Write(entry.value) + rest) == Some((entry, rest))
    decreases entry.value, 2
  {
    hide ReadValue, Write, ReadString, Quote;
    var tail := ":" + (Write(entry.value) + rest);
    ReadsQuoted(entry.key, tail);
    ReadsWritten(entry.value, rest);
    assert Quote(entry.key) + ":" + Write(entry.value) + rest == Quote(entry.key) + tail;
    assert tail[1..] == Write(entry.value) + rest;
  }

  lemma ReadsLastEntry(entry: Entry, t: string, rest: string)
    requires ReadEntry(t) == Some((entry, "}" + rest))
    ensures ReadEntries(t) == Some(([entry], rest))
  {
    hide ReadEntry;
    assert ("}" + rest)[1..] == rest;
  }

  lemma ReadsEntryBefore(entry: Entry, t: string, inner: string, others: seq<Entry>, rest: string)
    requires ReadEntry(t) == Some((entry, "," + inner)) && ReadEntries(inner) == Some((others, rest))
    ensures ReadEntries(t) == Some(([entry] + others, rest))
  {
    hide ReadEntry;
    assert ("," + inner)[1..] == inner && ("," + inner)[0] == ',';
  }

  lemma {:induction false} ReadsWrittenEntries(entries: seq<Entry>, rest: string)
    requires entries != [] && ValidEntries(entries)
    ensures ReadEntries(WriteEntries(entries) + "}" + rest) == Some((entries, rest))
    decreases entries, 0
  {
    hide ReadValue, ReadEntry, ReadEntries, Write, Quote;
    var others, first := entries[1..], Quote(entries[0].key) + ":" + Write(entries[0].value);
    if others == [] {
      ReadsWrittenEntry(entries[0], "}" + rest);
      ReadsLastEntry(entries[0], first + ("}" + rest), rest);
      assert WriteEntries(entries) + "}" + rest == first + ("}" + rest);
      assert entries == [entries[0]];
    } else {
      var inner := WriteEntries(others) + "}" + rest;
      ReadsWrittenEntry(entries[0], "," + inner);
      ReadsWrittenEntries(others, rest);
      ReadsEntryBefore(entries[0], first + ("," + inner), inner, others, rest);
      assert WriteEntries(entries) + "}" + rest == first + ("," + inner);
      assert entries == [entries[0]] + others;
    }
  }

  // ---------------------------------------------------------------------------------------------
  // The order of insertion does not matter
  // ---------------------------------------------------------------------------------------------

  predicate SortedKeys(entries: seq<Entry>)
  {
    entries == [] ||
    ((forall e :: e in entries[1..] ==> Before(entries[0].key, e.key)) && SortedKeys(entries[1..]))
  }

  /** Keys in order at every level. */
  predicate IsNormal(value: Tree)
    decreases value, 1
  {
    match value
    case Array(items) => NormalAll(items)
    case Object(entries) => SortedKeys(entries) && NormalValues(entries)
    case _ => true
  }

  predicate NormalAll(items: seq<Tree>)
    decreases items, 0
  {
    items == [] || (IsNormal(items[0]) && NormalAll(items[1..]))
  }

  predicate NormalValues(entries: seq<Entry>)
    decreases entries, 0
  {
    entries == [] || (IsNormal(entries[0].value) && NormalValues(entries[1..]))
  }

  /** Inserting a new key keeps the keys in order. */
  lemma {:induction false} InsertKeepsOrder(entry: Entry, sorted: seq<Entry>)
    requires SortedKeys(sorted) && !HasKey(sorted, entry.key)
    ensures SortedKeys(Insert(entry, sorted))
  {
    if sorted == [] {
      assert ([entry] + sorted)[1..] == [];
    } else if Before(entry.key, sorted[0].key) {
      assert ([entry] + sorted)[1..] == sorted;
      assert sorted == [sorted[0]] + sorted[1..];
      forall e | e in sorted
        ensures Before(entry.key, e.key)
      {
        if e != sorted[0] {
          BeforeChains(entry.key, sorted[0].key, e.key);
        }
      }
    } else {
      assert sorted[0] in sorted && sorted == [sorted[0]] + sorted[1..];
      BeforeIsStrict(entry.key, sorted[0].key);
      InsertKeepsOrder(entry, sorted[1..]);
      var rest := Insert(entry, sorted[1..]);
      assert ([sorted[0]] + rest)[1..] == rest;
    }
  }

  /** Inserting a new key adds just that field. */
  lemma {:induction false} InsertAddsField(entry: Entry, sorted: seq<Entry>)
    requires entry.key !in MeaningFields(sorted)
    ensures MeaningFields(Insert(entry, sorted)) == MeaningFields(sorted)[entry.key := Meaning(entry.value)]
  {
    hide Meaning, Before, HasKey;
    if sorted == [] || Before(entry.key, sorted[0].key) {
      assert ([entry] + sorted)[1..] == sorted;
    } else {
      InsertAddsField(entry, sorted[1..]);
      var rest := Insert(entry, sorted[1..]);
      assert Insert(entry, sorted) == [sorted[0]] + rest && ([sorted[0]] + rest)[1..] == rest;
    }
  }

  lemma {:induction false} InsertKeepsValues(entry: Entry, sorted: seq<Entry>)
    requires IsNormal(entry.value) && NormalValues(sorted) && Valid(entry.value) && ValidEntries(sorted)
    ensures NormalValues(Insert(entry, sorted)) && ValidEntries(Insert(entry, sorted))
  {
    hide IsNormal, Valid, Before;
    if sorted == [] || Before(entry.key, sorted[0].key) {
      assert ([entry] + sorted)[1..] == sorted;
    } else {
      InsertKeepsValues(entry, sorted[1..]);
      var rest := Insert(entry, sorted[1..]);
      assert Insert(entry, sorted) == [sorted[0]] + rest && ([sorted[0]] + rest)[1..] == rest;
    }
  }

  /** Sorted entries carry distinct keys. */
  lemma {:induction false} SortedAreDistinct(entries: seq<Entry>)
    requires SortedKeys(entries)
    ensures DistinctKeys(entries)
  {
    if entries != [] {
      SortedAreDistinct(entries[1..]);
      BeforeIsStrict(entries[0].key, entries[0].key);
    }
  }

  /** Sorting changes no value, and leaves every object's keys in order. */
  lemma {:induction false} NormalMeansTheSame(value: Tree)
    requires Valid(value)
    ensures Meaning(Normal(value)) == Meaning(value) && IsNormal(Normal(value)) && Valid(Normal(value))
    decreases value, 1
  {
    match value
    case Array(items) => NormalItemsMeanTheSame(items);
    case Object(entries) =>
      NormalEntriesMeanTheSame(entries);
      SortedAreDistinct(NormalEntries(entries));
    case _ =>
  }

  lemma {:induction false} NormalItemsMeanTheSame(items: seq<Tree>)
    requires ValidItems(items)
    ensures MeaningItems(NormalItems(items)) == MeaningItems(items)
    ensures NormalAll(NormalItems(items)) && ValidItems(NormalItems(items))
    decreases items, 0
  {
    if items != [] {
      NormalMeansTheSame(items[0]);
      NormalItemsMeanTheSame(items[1..]);
      assert NormalItems(items)[1..] == NormalItems(items[1..]);
    }
  }

  lemma {:induction false} NormalEntriesMeanTheSame(entries: seq<Entry>)
    requires DistinctKeys(entries) && ValidEntries(entries)
    ensures MeaningFields(NormalEntries(entries)) == MeaningFields(entries)
    ensures SortedKeys(NormalEntries(entries)) && NormalValues(NormalEntries(entries))
    ensures ValidEntries(NormalEntries(entries))
    decreases entries, 0
  {
    if entries != [] {
      NormalMeansTheSame(entries[0].value);
      NormalEntriesMeanTheSame(entries[1..]);
      var first := Entry(entries[0].key, Normal(entries[0].value));
      assert HasKey(NormalEntries(entries[1..]), first.key) <==> first.key in MeaningFields(entries[1..]);
      InsertKeepsOrder(first, NormalEntries(entries[1..]));
      InsertAddsField(first, NormalEntries(entries[1..]));
      InsertKeepsValues(first, NormalEntries(entries[1..]));
    }
  }

  /** Two values in normal order that mean the same are the same. */
  lemma {:induction false} NormalFormIsUnique(a: Tree, b: Tree)
    requires IsNormal(a) && IsNormal(b) && Meaning(a) == Meaning(b)
    ensures a == b
    decreases a, 1
  {
    match a
    case Array(items) => NormalItemsAreUnique(items, b.items);
    case Object(entries) => NormalEntriesAreUnique(entries, b.entries);
    case _ =>
  }

  lemma {:induction false} NormalItemsAreUnique(a: seq<Tree>, b: seq<Tree>)
    requires NormalAll(a) && NormalAll(b) && MeaningItems(a) == MeaningItems(b)
    ensures a == b
    decreases a, 0
  {
    if a != [] {
      var x, y := MeaningItems(a), MeaningItems(b);
      assert x[0] == Meaning(a[0]) && x[1..] == MeaningItems(a[1..]);
      assert b != [] && y[0] == Meaning(b[0]) && y[1..] == MeaningItems(b[1..]);
      NormalFormIsUnique(a[0], b[0]);
      NormalItemsAreUnique(a[1..], b[1..]);
      assert a == [a[0]] + a[1..] && b == [b[0]] + b[1..];
    }
  }

  /** The first key in order is the least of the keys. */
  lemma FirstKeyIsLeast(entries: seq<Entry>, key: string)
    requires SortedKeys(entries) && key in MeaningFields(entries)
    ensures entries != [] && (key == entries[0].key || Before(entries[0].key, key))
  {
    hide Meaning;
    assert entries == [entries[0]] + entries[1..];
  }

  lemma FirstFieldAndOthers(entries: seq<Entry>)
    requires SortedKeys(entries)
    ensures entries == [] <==> MeaningFields(entries) == map[]
    ensures entries != [] ==>
      && entries[0].key in MeaningFields(entries)
      && MeaningFields(entries)[entries[0].key] == Meaning(entries[0].value)
      && MeaningFields(entries[1..]) == MeaningFields(entries) - {entries[0].key}
  {
    hide Meaning, Before, SortedKeys, HasKey;
    if entries != [] {
      SortedAreDistinct(entries);
      var first, others := entries[0].key, MeaningFields(entries[1..]);
      assert first !in others;
      assert MeaningFields(entries) == others[first := Meaning(entries[0].value)];
    }
  }

  lemma {:induction false} NormalEntriesAreUnique(a: seq<Entry>, b: seq<Entry>)
    requires SortedKeys(a) && SortedKeys(b) && NormalValues(a) && NormalValues(b)
    requires MeaningFields(a) == MeaningFields(b)
    ensures a == b
    decreases a, 0
  {
    FirstFieldAndOthers(a);
    FirstFieldAndOthers(b);
    if a != [] {
      hide Meaning, MeaningFields, Before;
      FirstKeyIsLeast(b, a[0].key);
      FirstKeyIsLeast(a, b[0].key);
      BeforeIsStrict(a[0].key, b[0].key);
      NormalFormIsUnique(a[0].value, b[0].value);
      NormalEntriesAreUnique(a[1..], b[1..]);
      assert a == [a[0]] + a[1..] && b == [b[0]] + b[1..];
    }
  }

  // ---------------------------------------------------------------------------------------------
  // The canonical text and the prologue
  // ---------------------------------------------------------------------------------------------

  /** The canonical text is read back to the value with its keys in order. */
  lemma CanonicalIsReadBack(value: Tree, rest: string)
    requires Valid(value) && Delimits(rest)
    ensures ReadValue(Canonical(value) + rest) == Some((Normal(value), rest))
  {
    hide ReadValue, Write, Normal, Valid;
    NormalMeansTheSame(value);
    ReadsWritten(Normal(value), rest);
  }

  /** One key comes first where the two part: it has the smaller character there, or ends there. */
  ghost predicate PrecedesAt(x: string, y: string, n: nat)
  {
    && n <= |x| && n <= |y| && x[..n] == y[..n]
    && ((n == |x| && n < |y|) || (n < |x| && n < |y| && x[n] as int < y[n] as int))
  }

  ghost predicate Precedes(x: string, y: string)
  {
    exists n: nat :: PrecedesAt(x, y, n)
  }

  lemma {:induction false} BeforePrecedes(x: string, y: string)
    requires Before(x, y)
    ensures Precedes(x, y)
  {
    if x == [] {
      assert PrecedesAt(x, y, 0);
    } else if x[0] < y[0] {
      assert PrecedesAt(x, y, 0);
    } else {
      BeforePrecedes(x[1..], y[1..]);
      var n: nat :| PrecedesAt(x[1..], y[1..], n);
      assert x[..n + 1] == [x[0]] + x[1..][..n] && y[..n + 1] == [y[0]] + y[1..][..n];
      assert PrecedesAt(x, y, n + 1);
    }
  }

  /** The keys of every object in the value ascend, at every level. */
  ghost predicate Ascends(value: Tree)
    decreases value
  {
    match value
    case Array(items) => forall i :: 0 <= i < |items| ==> Ascends(items[i])
    case Object(entries) =>
      && (forall i, j :: 0 <= i < j < |entries| ==> Precedes(entries[i].key, entries[j].key))
      && forall i :: 0 <= i < |entries| ==> Ascends(entries[i].value)
    case _ => true
  }

  lemma {:induction false} SortedKeysAscend(entries: seq<Entry>)
    requires SortedKeys(entries)
    ensures forall i, j :: 0 <= i < j < |entries| ==> Precedes(entries[i].key, entries[j].key)
  {
    hide Before, Precedes;
    if entries != [] {
      SortedKeysAscend(entries[1..]);
      forall j | 0 < j < |entries| ensures Precedes(entries[0].key, entries[j].key) {
        assert entries[j] in entries[1..] by { assert entries[1..][j - 1] == entries[j]; }
        BeforePrecedes(entries[0].key, entries[j].key);
      }
      forall i, j | 0 < i < j < |entries| ensures Precedes(entries[i].key, entries[j].key) {
        assert entries[1..][i - 1] == entries[i] && entries[1..][j - 1] == entries[j];
      }
    }
  }

  lemma {:induction false} NormalAscends(value: Tree)
    requires IsNormal(value)
    ensures Ascends(value)
    decreases value
  {
    hide Precedes, SortedKeys;
    match value
    case Array(items) =>
      forall i | 0 <= i < |items| ensures Ascends(items[i]) {
        NormalAllAt(items, i);
        NormalAscends(items[i]);
      }
    case Object(entries) =>
      SortedKeysAscend(entries);
      forall i | 0 <= i < |entries| ensures Ascends(entries[i].value) {
        NormalValuesAt(entries, i);
        NormalAscends(entries[i].value);
      }
    case _ =>
  }

  lemma {:induction false} NormalAllAt(items: seq<Tree>, i: nat)
    requires NormalAll(items) && i < |items|
    ensures IsNormal(items[i])
  {
    if i > 0 {
      NormalAllAt(items[1..], i - 1);
    }
  }

  lemma {:induction false} NormalValuesAt(entries: seq<Entry>, i: nat)
    requires NormalValues(entries) && i < |entries|
    ensures IsNormal(entries[i].value)
  {
    if i > 0 {
      NormalValuesAt(entries[1..], i - 1);
    }
  }

  /** What is read back from canonical text has the keys of every object ascending, and means the value written. */
  lemma CanonicalKeysAscend(value: Tree, rest: string)
    requires Valid(value) && Delimits(rest)
    ensures var read := ReadValue(Canonical(value) + rest);
      read.Some? && read.value.1 == rest && Ascends(read.value.0) && Meaning(read.value.0) == Meaning(value)
  {
    hide ReadValue, Write, Normal, Valid, Ascends, Canonical, IsNormal;
    CanonicalIsReadBack(value, rest);
    NormalMeansTheSame(value);
    NormalAscends(Normal(value));
  }

  /** Two values have the same text exactly when they are the same, whatever order their keys came in. */
  lemma CanonicalTellsValuesApart(a: Tree, b: Tree)
    requires Valid(a) && Valid(b)
    ensures Canonical(a) == Canonical(b) <==> Meaning(a) == Meaning(b)
  {
    hide ReadValue, Write, Normal, Valid, Meaning, IsNormal;
    NormalMeansTheSame(a);
    NormalMeansTheSame(b);
    if Meaning(a) == Meaning(b) {
      NormalFormIsUnique(Normal(a), Normal(b));
    }
    CanonicalIsReadBack(a, []);
    CanonicalIsReadBack(b, []);
    assert Canonical(a) + [] == Canonical(a) && Canonical(b) + [] == Canonical(b);
  }

  /** An object's text ends itself: after it anything may follow. */
  lemma ObjectTextIsReadBack(entries: seq<Entry>, rest: string)
    requires Valid(Object(entries))
    ensures ReadValue(Canonical(Object(entries)) + rest) == Some((Normal(Object(entries)), rest))
  {
    hide ReadValue, ReadEntries, WriteEntries, SortedKeys, NormalValues, MeaningFields;
    NormalMeansTheSame(Object(entries));
    var sorted := NormalEntries(entries);
    if sorted == [] {
      ReadsEmpty(Object(sorted), rest);
    } else {
      ReadsWrittenEntries(sorted, rest);
      StartsWithAKey(sorted);
      OpensBrace(sorted, WriteEntries(sorted) + "}" + rest, rest);
      assert Canonical(Object(entries)) + rest == "{" + (WriteEntries(sorted) + "}" + rest);
    }
  }

  /** No object's text is a proper prefix of another's, nor of another's followed by anything. */
  lemma ObjectTextIsPrefixFree(a: seq<Entry>, r: string, b: seq<Entry>, s: string)
    requires Valid(Object(a)) && Valid(Object(b))
    requires Canonical(Object(a)) + r == Canonical(Object(b)) + s
    ensures Meaning(Object(a)) == Meaning(Object(b)) && r == s
  {
    hide ReadValue, Normal, Meaning, Valid, Canonical;
    ObjectTextIsReadBack(a, r);
    ObjectTextIsReadBack(b, s);
    NormalMeansTheSame(Object(a));
    NormalMeansTheSame(Object(b));
  }

  /** The hub's HELLO payload, its HANDSHAKE payload and the protocol name, with nothing between them. */
  function Prologue(hello: seq<Entry>, handshake: seq<Entry>, protocolName: string): string
  {
    Canonical(Object(hello)) + Canonical(Object(handshake)) + protocolName
  }

  /** Two peers compute the same prologue exactly when they saw the same negotiation. */
  lemma PrologueTellsNegotiationsApart(hello: seq<Entry>, handshake: seq<Entry>, name: string,
                                       hello': seq<Entry>, handshake': seq<Entry>, name': string)
    requires Valid(Object(hello)) && Valid(Object(handshake)) && Valid(Object(hello')) && Valid(Object(handshake'))
    ensures Prologue(hello, handshake, name) == Prologue(hello', handshake', name') <==>
      && Meaning(Object(hello)) == Meaning(Object(hello'))
      && Meaning(Object(handshake)) == Meaning(Object(handshake'))
      && name == name'
  {
    hide Canonical, Meaning, Valid;
    var h, k := Canonical(Object(hello)), Canonical(Object(handshake));
    var h', k' := Canonical(Object(hello')), Canonical(Object(handshake'));
    CanonicalTellsValuesApart(Object(hello), Object(hello'));
    CanonicalTellsValuesApart(Object(handshake), Object(handshake'));
    assert Prologue(hello, handshake, name) == h + (k + name);
    assert Prologue(hello', handshake', name') == h' + (k' + name');
    if h + (k + name) == h' + (k' + name') {
      ObjectTextIsPrefixFree(hello, k + name, hello', k' + name');
      ObjectTextIsPrefixFree(handshake, name, handshake', name');
    }
  }

  // ---------------------------------------------------------------------------------------------
  // The writer
  // ---------------------------------------------------------------------------------------------

  function NormalEach(entries: seq<Entry>): (r: seq<Entry>)
    ensures |r| == |entries|
  {
    seq(|entries|, i requires 0 <= i < |entries| => Entry(entries[i].key, Normal(entries[i].value)))
  }

  lemma {:induction false} InsertThenNormal(entry: Entry, sorted: seq<Entry>)
    ensures NormalEach(Insert(entry, sorted)) == Insert(Entry(entry.key, Normal(entry.value)), NormalEach(sorted))
  {
    hide Normal, Before;
    if sorted == [] || Before(entry.key, sorted[0].key) {
    } else {
      InsertThenNormal(entry, sorted[1..]);
      assert NormalEach(sorted)[1..] == NormalEach(sorted[1..]);
    }
  }

  /** Sorting first and normalising each value after gives the same entries. */
  lemma {:induction false} SortThenNormal(entries: seq<Entry>)
    ensures NormalEach(Sort(entries)) == NormalEntries(entries)
  {
    hide Normal;
    if entries != [] {
      SortThenNormal(entries[1..]);
      InsertThenNormal(entries[0], Sort(entries[1..]));
    }
  }

  lemma {:induction false} WriteItemsAppends(items: seq<Tree>, last: Tree)
    ensures WriteItems(items + [last]) == (if items == [] then [] else WriteItems(items) + ",") + Write(last)
  {
    hide Write;
    if items != [] {
      WriteItemsAppends(items[1..], last);
      assert (items + [last])[1..] == items[1..] + [last];
    }
  }

  lemma {:induction false} WriteEntriesAppends(entries: seq<Entry>, last: Entry)
    ensures WriteEntries(entries + [last]) ==
      (if entries == [] then [] else WriteEntries(entries) + ",") + (Quote(last.key) + ":" + Write(last.value))
  {
    hide Write, Quote;
    if entries != [] {
      WriteEntriesAppends(entries[1..], last);
      assert (entries + [last])[1..] == entries[1..] + [last];
    }
  }

  lemma {:induction false} NormalItemsAppends(items: seq<Tree>, last: Tree)
    ensures NormalItems(items + [last]) == NormalItems(items) + [Normal(last)]
  {
    hide Normal;
    if items != [] {
      NormalItemsAppends(items[1..], last);
      assert (items + [last])[1..] == items[1..] + [last];
    }
  }

  /** Appends the canonical text of `value`, sorting the keys of each object on the way. */
  method WriteCanonical(out: string, value: Tree) returns (written: string)
    ensures written == out + Canonical(value)
    decreases value, 1
  {
    hide Quote;
    match value
    case Null => written := out + "null";
    case Bool(flag) => written := out + if flag then "true" else "false";
    case Number(token) => written := out + token;
    case String(text) => written := WriteString(out, text);
    case Array(items) => written := WriteArray(out, items);
    case Object(entries) => written := WriteObject(out, entries);
  }

  function Comma(i: nat): string
  {
    if i == 0 then "" else ","
  }

  lemma Regroup(out: string, bracket: string, done: string, comma: string, next: string)
    ensures out + (bracket + done) + comma + next == out + (bracket + (done + comma + next))
  {
  }

  lemma {:induction false} NormalItemsLength(items: seq<Tree>)
    ensures |NormalItems(items)| == |items|
  {
    hide Normal;
    if items != [] {
      NormalItemsLength(items[1..]);
    }
  }

  lemma NextItem(items: seq<Tree>, i: nat)
    requires i < |items|
    ensures WriteItems(NormalItems(items[..i + 1])) ==
      WriteItems(NormalItems(items[..i])) + Comma(i) + Canonical(items[i])
  {
    hide Write, Normal;
    assert items[..i + 1] == items[..i] + [items[i]];
    NormalItemsLength(items[..i]);
    NormalItemsAppends(items[..i], items[i]);
    WriteItemsAppends(NormalItems(items[..i]), Normal(items[i]));
  }

  lemma NextEntry(texts: seq<Entry>, i: nat)
    requires i < |texts|
    ensures WriteEntries(texts[..i + 1]) ==
      WriteEntries(texts[..i]) + Comma(i) + (Quote(texts[i].key) + ":" + Write(texts[i].value))
  {
    hide Write, Quote;
    assert texts[..i + 1] == texts[..i] + [texts[i]];
    WriteEntriesAppends(texts[..i], texts[i]);
  }

  lemma NothingYet(items: seq<Tree>, texts: seq<Entry>)
    ensures WriteItems(NormalItems(items[..0])) == [] && WriteEntries(texts[..0]) == []
  {
  }

  lemma ClosesArray(items: seq<Tree>)
    ensures items[..|items|] == items
    ensures Canonical(Array(items)) == "[" + WriteItems(NormalItems(items)) + "]"
  {
  }

  lemma ClosesObject(entries: seq<Entry>)
    ensures var texts := NormalEach(Sort(entries));
      texts[..|texts|] == texts && Canonical(Object(entries)) == "{" + WriteEntries(texts) + "}"
  {
    SortThenNormal(entries);
  }

  method WriteArray(out: string, items: seq<Tree>) returns (written: string)
    ensures written == out + Canonical(Array(items))
    decreases items
  {
    hide WriteItems, NormalItems, Canonical;
    written := out + "[";
    NothingYet(items, []);
    for i := 0 to |items|
      invariant written == out + ("[" + WriteItems(NormalItems(items[..i])))
    {
      NextItem(items, i);
      Regroup(out, "[", WriteItems(NormalItems(items[..i])), Comma(i), Canonical(items[i]));
      if i > 0 {
        written := written + ",";
      }
      written := WriteCanonical(written, items[i]);
    }
    ClosesArray(items);
    written := written + "]";
  }

  method WriteEntry(out: string, entry: Entry) returns (written: string)
    ensures written == out + (Quote(entry.key) + ":" + Canonical(entry.value))
    decreases entry.value, 2
  {
    hide Quote, Canonical;
    written := WriteString(out, entry.key);
    written := WriteCanonical(written + ":", entry.value);
  }

  method WriteObject(out: string, entries: seq<Entry>) returns (written: string)
    ensures written == out + Canonical(Object(entries))
    decreases entries
  {
    hide WriteEntries, Quote, Sort, Write, Normal;
    var sorted := Sort(entries);
    ghost var texts := NormalEach(sorted);
    written := out + "{";
    NothingYet([], texts);
    for i := 0 to |sorted|
      invariant written == out + ("{" + WriteEntries(texts[..i]))
    {
      assert sorted[i] in entries;
      NextEntry(texts, i);
      Regroup(out, "{", WriteEntries(texts[..i]), Comma(i), Quote(texts[i].key) + ":" + Write(texts[i].value));
      if i > 0 {
        written := written + ",";
      }
      written := WriteEntry(written, sorted[i]);
    }
    ClosesObject(entries);
    written := written + "}";
  }

  /** The prologue, built as the source builds it. */
  method BuildPrologue(hello: seq<Entry>, handshake: seq<Entry>, protocolName: string) returns (prologue: string)
    ensures prologue == Prologue(hello, handshake, protocolName)
  {
    hide Canonical;
    prologue := WriteCanonical("", Object(hello));
    prologue := WriteCanonical(prologue, Object(handshake));
    prologue := prologue + protocolName;
  }

  // ---------------------------------------------------------------------------------------------
  // The texts both peers agree on
  // ---------------------------------------------------------------------------------------------

  /** A reference vector of the source, its keys inserted in the other order: sorted, and no white space. */
  lemma ReferenceVector()
    ensures Canonical(Object([Entry("encodings", Array([])), Entry("binarize", Bool(false))])) ==
            "{" + ("\"binarize\":false" + "," + "\"encodings\":[]") + "}"
  {
    var b, e := Entry("binarize", Bool(false)), Entry("encodings", Array([]));
    hide Write, WriteEntries, NormalEntries;
    VectorIsSorted(b, e);
    VectorIsWritten(b, e);
    ObjectIsWritten([e, b]);
  }

  lemma ObjectIsWritten(entries: seq<Entry>)
    ensures Canonical(Object(entries)) == "{" + WriteEntries(NormalEntries(entries)) + "}"
  {
    hide WriteEntries, NormalEntries;
  }

  lemma VectorIsSorted(b: Entry, e: Entry)
    requires b == Entry("binarize", Bool(false)) && e == Entry("encodings", Array([]))
    ensures NormalEntries([e, b]) == [b, e]
  {
    assert [e, b][1..] == [b] && [b][1..] == [];
    assert NormalEntries([b]) == [b];
    assert Normal(e.value) == e.value;
    assert Insert(e, [b]) == [b] + Insert(e, []);
  }

  lemma VectorIsWritten(b: Entry, e: Entry)
    requires b == Entry("binarize", Bool(false)) && e == Entry("encodings", Array([]))
    ensures WriteEntries([b, e]) == "\"binarize\":false" + "," + "\"encodings\":[]"
  {
    hide Quote;
    PlainTextIsWrittenAsItIs("binarize");
    PlainTextIsWrittenAsItIs("encodings");
    assert [b, e][1..] == [e] && [e][1..] == [];
    assert Write(e.value) == "[]";
    assert Quote(b.key) + ":" + Write(b.value) == "\"binarize\":false";
    assert Quote(e.key) + ":" + Write(e.value) == "\"encodings\":[]";
    hide Write;
    assert WriteEntries([e]) == "\"encodings\":[]";
  }
}
