/** Making a value safe to persist: secret keys starred out, depth, item count and string length bounded. */
module Redaction {
  import opened Texts

  const SECRET_KEY_HINTS: seq<string> :=
    ["password", "secret", "token", "api_key", "apikey", "authorization", "auth", "credential", "private_key"]
  const MAX_STR: nat := 512
  const MAX_DEPTH: nat := 4
  const MAX_ITEMS: nat := 50
  const STARS := PyValue.Str("***")
  const TOO_DEEP := PyValue.Str("<truncated:depth>")
  const CUT := "\U{2026}<truncated>"

  /** A Python value; `Other` is any object outside the JSON types, known only by its `repr`. */
  datatype PyValue =
    | None
    | Bool(truth: bool)
    | Int(number: int)
    | Float(float: real)
    | Str(text: string)
    | List(items: seq<PyValue>)
    | Tuple(items: seq<PyValue>)
    | Mapping(entries: seq<Entry>)
    | Other(repr: string)

  /** One mapping item in insertion order; `key` is `str(key)`, so two entries may share it. */
  datatype Entry = Entry(key: string, value: PyValue)

  // ---- secret keys ----

  ghost predicate OccursAt(hint: string, s: string, i: nat) {
    i + |hint| <= |s| && s[i..i + |hint|] == hint
  }

  predicate Contains(s: string, hint: string) {
    |hint| <= |s| && (s[..|hint|] == hint || (s != [] && Contains(s[1..], hint)))
  }

  lemma OccursLater(hint: string, s: string, i: nat)
    requires s != []
    ensures OccursAt(hint, s[1..], i) <==> OccursAt(hint, s, i + 1)
  {
    if i + 1 + |hint| <= |s| {
      assert s[i + 1..i + 1 + |hint|] == s[1..][i..i + |hint|];
    }
  }

  lemma {:induction false} ContainsSomewhere(s: string, hint: string)
    ensures Contains(s, hint) <==> exists i: nat :: OccursAt(hint, s, i)
  {
    if |hint| <= |s| {
      assert OccursAt(hint, s, 0) <==> s[..|hint|] == hint;
      if s != [] {
        ContainsSomewhere(s[1..], hint);
        forall i: nat ensures OccursAt(hint, s[1..], i) <==> OccursAt(hint, s, i + 1) {
          OccursLater(hint, s, i);
        }
        if i: nat :| OccursAt(hint, s, i) && i > 0 {
          assert OccursAt(hint, s[1..], i - 1);
        }
      }
    }
  }

  predicate IsSecretKey(key: string) {
    exists i | 0 <= i < |SECRET_KEY_HINTS| :: Contains(Lower(key), SECRET_KEY_HINTS[i])
  }

  /** The hint is spelled at position `i` of the key, up to the case of ASCII letters. */
  ghost predicate SpelledAt(hint: string, key: string, i: nat) {
    && i + |hint| <= |key|
    && forall j | 0 <= j < |hint| ::
         key[i + j] == hint[j] || ('A' <= key[i + j] <= 'Z' && key[i + j] as int + 32 == hint[j] as int)
  }

  ghost predicate Spells(key: string, hint: string) {
    exists i: nat :: SpelledAt(hint, key, i)
  }

  /** Some part of the key names a secret. */
  ghost predicate NamesSecret(key: string) {
    || Spells(key, "password") || Spells(key, "secret") || Spells(key, "token") || Spells(key, "api_key")
    || Spells(key, "apikey") || Spells(key, "authorization") || Spells(key, "auth") || Spells(key, "credential")
    || Spells(key, "private_key")
  }

  lemma SpelledIsLowered(hint: string, key: string, i: nat)
    requires forall j | 0 <= j < |hint| :: !('A' <= hint[j] <= 'Z')
    ensures SpelledAt(hint, key, i) <==> OccursAt(hint, Lower(key), i)
  {
    if i + |hint| <= |key| {
      var part := Lower(key)[i..i + |hint|];
      assert forall j | 0 <= j < |hint| :: part[j] == LowerChar(key[i + j]);
      if part == hint {
        forall j | 0 <= j < |hint|
          ensures key[i + j] == hint[j] || ('A' <= key[i + j] <= 'Z' && key[i + j] as int + 32 == hint[j] as int)
        {
          assert part[j] == hint[j];
        }
      }
    }
  }

  lemma SpellsIsContained(key: string, hint: string)
    requires forall j | 0 <= j < |hint| :: !('A' <= hint[j] <= 'Z')
    ensures Spells(key, hint) <==> Contains(Lower(key), hint)
  {
    ContainsSomewhere(Lower(key), hint);
    forall i: nat ensures SpelledAt(hint, key, i) <==> OccursAt(hint, Lower(key), i) {
      SpelledIsLowered(hint, key, i);
    }
  }

  /** The secret keys are exactly those that spell one of the nine hints, in any case. */
  lemma SecretKeysAreSpelled(key: string)
    ensures IsSecretKey(key) <==> NamesSecret(key)
  {
    hide Spells, Contains, Lower;
    SpellsIsContained(key, "password");
    SpellsIsContained(key, "secret");
    SpellsIsContained(key, "token");
    SpellsIsContained(key, "api_key");
    SpellsIsContained(key, "apikey");
    SpellsIsContained(key, "authorization");
    SpellsIsContained(key, "auth");
    SpellsIsContained(key, "credential");
    SpellsIsContained(key, "private_key");
    assert SECRET_KEY_HINTS[0] == "password" && SECRET_KEY_HINTS[1] == "secret" && SECRET_KEY_HINTS[2] == "token";
    assert SECRET_KEY_HINTS[3] == "api_key" && SECRET_KEY_HINTS[4] == "apikey" && SECRET_KEY_HINTS[5] == "authorization";
    assert SECRET_KEY_HINTS[6] == "auth" && SECRET_KEY_HINTS[7] == "credential" && SECRET_KEY_HINTS[8] == "private_key";
  }

  // ---- sanitizing ----

  function Shorten(s: string): string {
    if |s| > MAX_STR then s[..MAX_STR] + CUT else s
  }

  function Kept(n: nat): nat {
    if n < MAX_ITEMS then n else MAX_ITEMS
  }

  function IndexOf(d: seq<Entry>, key: string): (i: nat)
    ensures i <= |d| && (i < |d| ==> d[i].key == key)
    ensures forall j | 0 <= j < i :: d[j].key != key
  {
    if d == [] || d[0].key == key then 0
    else
      var i := IndexOf(d[1..], key);
      assert forall j | 1 <= j < i + 1 :: d[j] == d[1..][j - 1];
      i + 1
  }

  /** Dictionary assignment: an existing key keeps its place. */
  function Put(d: seq<Entry>, e: Entry): seq<Entry> {
    var i := IndexOf(d, e.key);
    if i < |d| then d[i := e] else d + [e]
  }

  function Sanitize(v: PyValue, depth: nat): PyValue
    decreases MAX_DEPTH - depth, 1
  {
    if depth >= MAX_DEPTH then TOO_DEEP
    else
      match v
      case Mapping(entries) => Mapping(Filled(entries, Kept(|entries|), depth))
      case List(items) => List(seq(Kept(|items|), i requires 0 <= i < Kept(|items|) => Sanitize(items[i], depth + 1)))
      case Tuple(items) => List(seq(Kept(|items|), i requires 0 <= i < Kept(|items|) => Sanitize(items[i], depth + 1)))
      case Str(text) => Str(Shorten(text))
      case Other(repr) => Str(Shorten(repr))
      case _ => v
  }

  function SafeEntry(e: Entry, depth: nat): Entry
    requires depth < MAX_DEPTH
    decreases MAX_DEPTH - depth, 0, 0
  {
    Entry(e.key, if IsSecretKey(e.key) then STARS else Sanitize(e.value, depth + 1))
  }

  /** The result dictionary after `n` entries. */
  function Filled(entries: seq<Entry>, n: nat, depth: nat): seq<Entry>
    requires n <= |entries| && depth < MAX_DEPTH
    decreases MAX_DEPTH - depth, 0, n + 1
  {
    if n == 0 then [] else Put(Filled(entries, n - 1, depth), SafeEntry(entries[n - 1], depth))
  }

  method SanitizeForMemory(value: PyValue, depth: nat) returns (safe: PyValue)
    ensures safe == Sanitize(value, depth)
    decreases MAX_DEPTH - depth
  {
    if depth >= MAX_DEPTH {
      return TOO_DEEP;
    }
    match value {
      case Mapping(entries) =>
        var out: seq<Entry> := [];
        for i := 0 to Kept(|entries|)
          invariant out == Filled(entries, i, depth)
        {
          if IsSecretKey(entries[i].key) {
            out := Put(out, Entry(entries[i].key, STARS));
          } else {
            var item := SanitizeForMemory(entries[i].value, depth + 1);
            out := Put(out, Entry(entries[i].key, item));
          }
        }
        safe := Mapping(out);
      case List(items) =>
        safe := SanitizeItems(items, depth);
      case Tuple(items) =>
        safe := SanitizeItems(items, depth);
      case Str(text) =>
        safe := Str(Shorten(text));
      case Other(repr) =>
        safe := Str(Shorten(repr));
      case _ =>
        safe := value;
    }
  }

  method SanitizeItems(items: seq<PyValue>, depth: nat) returns (safe: PyValue)
    requires depth < MAX_DEPTH
    ensures safe == Sanitize(List(items), depth)
    decreases MAX_DEPTH - depth, 0
  {
    var out: seq<PyValue> := [];
    for i := 0 to Kept(|items|)
      invariant |out| == i
      invariant forall j | 0 <= j < i :: out[j] == Sanitize(items[j], depth + 1)
    {
      var item := SanitizeForMemory(items[i], depth + 1);
      out := out + [item];
    }
    safe := List(out);
  }

  // ---- what a safe value is ----

  ghost predicate DistinctKeys(d: seq<Entry>) {
    forall i, j | 0 <= i < j < |d| :: d[i].key != d[j].key
  }

  ghost predicate SafeText(s: string) {
    |s| <= MAX_STR || (|s| == MAX_STR + |CUT| && s[MAX_STR..] == CUT)
  }

  ghost predicate SafeAt(e: Entry, depth: nat)
    requires depth < MAX_DEPTH
    decreases MAX_DEPTH - depth, 0
  {
    if IsSecretKey(e.key) then e.value == STARS else Safe(e.value, depth + 1)
  }

  /** Safe to persist when it sits `depth` levels down. */
  ghost predicate Safe(v: PyValue, depth: nat)
    decreases MAX_DEPTH - depth, 1
  {
    if depth >= MAX_DEPTH then v == TOO_DEEP
    else
      match v
      case Mapping(entries) =>
        |entries| <= MAX_ITEMS && DistinctKeys(entries) && forall i | 0 <= i < |entries| :: SafeAt(entries[i], depth)
      case List(items) => |items| <= MAX_ITEMS && forall i | 0 <= i < |items| :: Safe(items[i], depth + 1)
      case Str(text) => SafeText(text)
      case Tuple(_) => false
      case Other(_) => false
      case _ => true
  }

  lemma PutDistinct(d: seq<Entry>, e: Entry)
    requires DistinctKeys(d)
    ensures DistinctKeys(Put(d, e)) && e in Put(d, e)
    ensures |Put(d, e)| <= |d| + 1 && forall x | x in Put(d, e) :: x in d || x == e
    ensures forall x | x in d && x.key != e.key :: x in Put(d, e)
  {
    var r, i := Put(d, e), IndexOf(d, e.key);
    assert r[i] == e;
    forall x | x in d && x.key != e.key ensures x in r {
      var j :| 0 <= j < |d| && d[j] == x;
      assert r[j] == x;
    }
  }

  lemma {:induction false} FilledEntries(entries: seq<Entry>, n: nat, depth: nat, up: nat)
    requires n <= |entries| && up <= depth < MAX_DEPTH
    ensures |Filled(entries, n, depth)| <= n && DistinctKeys(Filled(entries, n, depth))
    ensures forall x | x in Filled(entries, n, depth) :: SafeAt(x, up)
    decreases MAX_DEPTH - depth, 0, n
  {
    if n > 0 {
      FilledEntries(entries, n - 1, depth, up);
      var e := SafeEntry(entries[n - 1], depth);
      SanitizedIsSafe(entries[n - 1].value, depth + 1, up + 1);
      assert SafeAt(e, up);
      assert Filled(entries, n, depth) == Put(Filled(entries, n - 1, depth), e);
      hide Put, Filled, SafeEntry, SafeAt, DistinctKeys;
      PutDistinct(Filled(entries, n - 1, depth), e);
    }
  }

  /** Whatever comes in, the result is safe at its own depth and anywhere above it. */
  lemma {:induction false} SanitizedIsSafe(v: PyValue, depth: nat, up: nat)
    requires up <= depth
    ensures Safe(Sanitize(v, depth), up)
    decreases MAX_DEPTH - depth, 1
  {
    if depth < MAX_DEPTH {
      match v {
        case Mapping(entries) => FilledEntries(entries, Kept(|entries|), depth, up);
        case List(items) =>
          forall i | 0 <= i < Kept(|items|) ensures Safe(Sanitize(items[i], depth + 1), up + 1) {
            SanitizedIsSafe(items[i], depth + 1, up + 1);
          }
        case Tuple(items) =>
          forall i | 0 <= i < Kept(|items|) ensures Safe(Sanitize(items[i], depth + 1), up + 1) {
            SanitizedIsSafe(items[i], depth + 1, up + 1);
          }
        case _ =>
      }
    }
  }

  /** When a key repeats, the last of the kept entries is the one that stays. */
  lemma {:induction false} LastEntryWins(entries: seq<Entry>, n: nat, j: nat, depth: nat)
    requires j < n <= |entries| && depth < MAX_DEPTH
    requires forall m | j < m < n :: entries[m].key != entries[j].key
    ensures SafeEntry(entries[j], depth) in Filled(entries, n, depth)
  {
    FilledEntries(entries, n - 1, depth, depth);
    PutDistinct(Filled(entries, n - 1, depth), SafeEntry(entries[n - 1], depth));
    hide Put, DistinctKeys, SafeAt;
    if j < n - 1 {
      LastEntryWins(entries, n - 1, j, depth);
    }
  }

  // ---- sanitizing twice ----

  lemma NextIsFresh(entries: seq<Entry>, n: nat)
    requires n < |entries| && DistinctKeys(entries)
    ensures Put(entries[..n], entries[n]) == entries[..n + 1]
  {
    assert IndexOf(entries[..n], entries[n].key) == n;
    assert entries[..n + 1] == entries[..n] + [entries[n]];
  }

  lemma {:induction false} SafeEntryStays(e: Entry, depth: nat)
    requires depth < MAX_DEPTH && SafeAt(e, depth)
    ensures SafeEntry(e, depth) == e
    decreases MAX_DEPTH - depth, 0, 0
  {
    if !IsSecretKey(e.key) {
      SafeStays(e.value, depth + 1);
    }
  }

  lemma {:induction false} SafeEntriesStay(entries: seq<Entry>, n: nat, depth: nat)
    requires depth < MAX_DEPTH && n <= |entries| && DistinctKeys(entries)
    requires forall i | 0 <= i < |entries| :: SafeAt(entries[i], depth)
    ensures Filled(entries, n, depth) == entries[..n]
    decreases MAX_DEPTH - depth, 0, n + 1
  {
    hide SafeAt, SafeEntry, Put, DistinctKeys;
    if n > 0 {
      NextIsFresh(entries, n - 1);
      SafeEntriesStay(entries, n - 1, depth);
      SafeEntryStays(entries[n - 1], depth);
    }
  }

  lemma {:induction false} SafeStays(v: PyValue, depth: nat)
    requires Safe(v, depth)
    ensures Sanitize(v, depth) == v
    decreases MAX_DEPTH - depth, 1
  {
    if depth < MAX_DEPTH {
      match v {
        case Mapping(entries) => SafeEntriesStay(entries, |entries|, depth);
        case List(items) =>
          forall i | 0 <= i < |items| ensures Sanitize(items[i], depth + 1) == items[i] {
            SafeStays(items[i], depth + 1);
          }
        case Str(text) => assert |text| > MAX_STR ==> text == text[..MAX_STR] + CUT;
        case _ =>
      }
    }
  }

  /** The safe values are exactly the ones sanitizing leaves alone. */
  lemma UnchangedExactlyWhenSafe(v: PyValue, depth: nat)
    ensures Sanitize(v, depth) == v <==> Safe(v, depth)
  {
    SanitizedIsSafe(v, depth, depth);
    if Safe(v, depth) {
      SafeStays(v, depth);
    }
  }

  /** Sanitizing again at the same depth, or higher up, changes nothing. */
  lemma SanitizingTwice(v: PyValue, depth: nat, up: nat)
    requires up <= depth
    ensures Sanitize(Sanitize(v, depth), up) == Sanitize(v, depth)
  {
    SanitizedIsSafe(v, depth, up);
    SafeStays(Sanitize(v, depth), up);
  }

  // ---- which parts of the input are kept ----

  /** The entry is looked at, and no later one that is looked at has the same key. */
  ghost predicate IsKept(entries: seq<Entry>, n: nat, j: nat) {
    j < n <= |entries| && forall m | j < m < n :: entries[m].key != entries[j].key
  }

  lemma FilledStep(entries: seq<Entry>, n: nat, depth: nat, x: Entry)
    requires n <= |entries| && depth < MAX_DEPTH && x in Filled(entries, n, depth)
    ensures n > 0
    ensures x != SafeEntry(entries[n - 1], depth) ==> x in Filled(entries, n - 1, depth) && x.key != entries[n - 1].key
  {
    if x != SafeEntry(entries[n - 1], depth) {
      FilledEntries(entries, n - 1, depth, depth);
      PutReplaces(Filled(entries, n - 1, depth), SafeEntry(entries[n - 1], depth), x);
    }
  }

  lemma KeptLonger(entries: seq<Entry>, n: nat, j: nat, depth: nat, x: Entry)
    requires n < |entries| && depth < MAX_DEPTH && IsKept(entries, n, j) && x == SafeEntry(entries[j], depth)
    requires x.key != entries[n].key
    ensures IsKept(entries, n + 1, j)
  {
  }

  lemma {:induction false} FilledComesFrom(entries: seq<Entry>, n: nat, depth: nat, x: Entry) returns (j: nat)
    requires n <= |entries| && depth < MAX_DEPTH && x in Filled(entries, n, depth)
    ensures IsKept(entries, n, j) && x == SafeEntry(entries[j], depth)
  {
    hide Filled, SafeEntry;
    FilledStep(entries, n, depth, x);
    if x == SafeEntry(entries[n - 1], depth) {
      j := n - 1;
    } else {
      j := FilledComesFrom(entries, n - 1, depth, x);
      KeptLonger(entries, n - 1, j, depth, x);
    }
  }

  lemma PutReplaces(d: seq<Entry>, e: Entry, x: Entry)
    requires DistinctKeys(d) && x in Put(d, e) && x != e
    ensures x in d && x.key != e.key
  {
    var r, i := Put(d, e), IndexOf(d, e.key);
    var p :| 0 <= p < |r| && r[p] == x;
    assert r[i] == e && p != i;
    assert d[p] == x;
  }

  /** A kept entry is starred when its key names a secret, and holds its sanitized value otherwise. */
  lemma KeptEntryIsStored(entries: seq<Entry>, j: nat, depth: nat)
    requires depth < 4 && IsKept(entries, if |entries| < 50 then |entries| else 50, j)
    ensures var r := Sanitize(Mapping(entries), depth);
            && r.Mapping?
            && Entry(entries[j].key, if NamesSecret(entries[j].key) then Str("***") else Sanitize(entries[j].value, depth + 1))
               in r.entries
  {
    SecretKeysAreSpelled(entries[j].key);
    hide IsSecretKey, NamesSecret;
    LastEntryWins(entries, Kept(|entries|), j, depth);
  }

  /** And the result holds nothing else. */
  lemma StoredEntryWasKept(entries: seq<Entry>, depth: nat, x: Entry) returns (j: nat)
    requires depth < 4 && Sanitize(Mapping(entries), depth).Mapping? && x in Sanitize(Mapping(entries), depth).entries
    ensures j < 50 && IsKept(entries, Kept(|entries|), j) && x.key == entries[j].key
    ensures x.value == if NamesSecret(x.key) then Str("***") else Sanitize(entries[j].value, depth + 1)
  {
    j := FilledComesFrom(entries, Kept(|entries|), depth, x);
    SecretKeysAreSpelled(x.key);
  }

  /** Lists and tuples become lists of their first fifty items, in order; the rest is kept, cut, or spelled out. */
  lemma SanitizedItems(v: PyValue, depth: nat)
    ensures depth >= 4 ==> Sanitize(v, depth) == Str("<truncated:depth>")
    ensures depth < 4 && (v.List? || v.Tuple?) ==>
              var r := Sanitize(v, depth);
              && r.List? && |r.items| == (if |v.items| < 50 then |v.items| else 50)
              && forall i | 0 <= i < |r.items| :: r.items[i] == Sanitize(v.items[i], depth + 1)
    ensures depth < 4 && (v.None? || v.Bool? || v.Int? || v.Float?) ==> Sanitize(v, depth) == v
    ensures depth < 4 && v.Str? ==> Sanitize(v, depth) == Str(Shorten(v.text))
    ensures depth < 4 && v.Other? ==> Sanitize(v, depth) == Str(Shorten(v.repr))
  {
  }

  ghost predicate ShallowOrSecret(e: Entry, depth: nat)
    requires depth + 1 < MAX_DEPTH
    decreases MAX_DEPTH - depth, 0, 0
  {
    IsSecretKey(e.key) || Shallow(e.value, depth + 1)
  }

  /** Everything above level four is kept, and what sits on level three is the depth marker itself. */
  ghost predicate Shallow(v: PyValue, depth: nat)
    requires depth < MAX_DEPTH
    decreases MAX_DEPTH - depth, 1
  {
    if depth == MAX_DEPTH - 1 then v == TOO_DEEP || v == Other(TOO_DEEP.text)
    else
      match v
      case Mapping(entries) =>
        KeptShallow(entries, Kept(|entries|), depth)
      case List(items) => forall i: nat | i < Kept(|items|) :: Shallow(items[i], depth + 1)
      case Tuple(items) => forall i: nat | i < Kept(|items|) :: Shallow(items[i], depth + 1)
      case _ => true
  }

  lemma {:induction false} ShallowEntry(e: Entry, depth: nat)
    requires depth + 1 < MAX_DEPTH
    ensures SafeAt(SafeEntry(e, depth), depth + 1) <==> ShallowOrSecret(e, depth)
    decreases MAX_DEPTH - depth, 0, 0
  {
    if !IsSecretKey(e.key) {
      SafeBelowExactlyWhenShallow(e.value, depth + 1);
    }
  }

  ghost predicate KeptShallow(entries: seq<Entry>, n: nat, depth: nat)
    requires depth + 1 < MAX_DEPTH && n <= |entries|
    decreases MAX_DEPTH - depth, 0, 1
  {
    forall j: nat | IsKept(entries, n, j) :: ShallowOrSecret(entries[j], depth)
  }

  ghost predicate AllSafe(d: seq<Entry>, depth: nat)
    requires depth < MAX_DEPTH
  {
    forall x | x in d :: SafeAt(x, depth)
  }

  lemma {:induction false} ShallowIfStoredSafe(entries: seq<Entry>, n: nat, depth: nat)
    requires depth + 1 < MAX_DEPTH && n <= |entries| && AllSafe(Filled(entries, n, depth), depth + 1)
    ensures KeptShallow(entries, n, depth)
    decreases MAX_DEPTH - depth, 0, 1
  {
    hide Filled, SafeAt, SafeEntry, ShallowOrSecret;
    forall j: nat | IsKept(entries, n, j) ensures ShallowOrSecret(entries[j], depth) {
      LastEntryWins(entries, n, j, depth);
      ShallowEntry(entries[j], depth);
    }
  }

  lemma {:induction false} StoredSafeIfShallow(entries: seq<Entry>, n: nat, depth: nat)
    requires depth + 1 < MAX_DEPTH && n <= |entries| && KeptShallow(entries, n, depth)
    ensures AllSafe(Filled(entries, n, depth), depth + 1)
    decreases MAX_DEPTH - depth, 0, 1
  {
    hide Filled, SafeAt, SafeEntry, ShallowOrSecret;
    forall x | x in Filled(entries, n, depth) ensures SafeAt(x, depth + 1) {
      var j := FilledComesFrom(entries, n, depth, x);
      ShallowEntry(entries[j], depth);
    }
  }

  lemma MembersAreSafe(d: seq<Entry>, depth: nat)
    requires depth < MAX_DEPTH
    ensures AllSafe(d, depth) <==> forall i | 0 <= i < |d| :: SafeAt(d[i], depth)
  {
    hide SafeAt;
    if forall i | 0 <= i < |d| :: SafeAt(d[i], depth) {
      forall x | x in d ensures SafeAt(x, depth) {
        var i :| 0 <= i < |d| && d[i] == x;
      }
    }
  }

  lemma {:induction false} ShallowEntries(entries: seq<Entry>, depth: nat)
    requires depth + 1 < MAX_DEPTH
    ensures Safe(Mapping(Filled(entries, Kept(|entries|), depth)), depth + 1) <==> Shallow(Mapping(entries), depth)
    decreases MAX_DEPTH - depth, 0, 2
  {
    hide Filled, SafeAt, IsKept, ShallowOrSecret, DistinctKeys, AllSafe;
    var n := Kept(|entries|);
    var d := Filled(entries, n, depth);
    FilledEntries(entries, n, depth, depth);
    MembersAreSafe(d, depth + 1);
    if AllSafe(d, depth + 1) {
      ShallowIfStoredSafe(entries, n, depth);
    }
    if KeptShallow(entries, n, depth) {
      StoredSafeIfShallow(entries, n, depth);
    }
  }

  lemma {:induction false} SafeBelowExactlyWhenShallow(v: PyValue, depth: nat)
    requires depth < MAX_DEPTH
    ensures Safe(Sanitize(v, depth), depth + 1) <==> Shallow(v, depth)
    decreases MAX_DEPTH - depth, 1
  {
    if depth + 1 < MAX_DEPTH {
      match v {
        case Mapping(entries) => ShallowEntries(entries, depth);
        case List(items) => ShallowItems(items, depth);
        case Tuple(items) => ShallowItems(items, depth);
        case _ =>
      }
    } else {
      ShortenKeepsShort(v, TOO_DEEP.text);
    }
  }

  lemma ShortenKeepsShort(v: PyValue, text: string)
    requires |text| <= MAX_STR
    ensures v.Str? ==> (Shorten(v.text) == text <==> v.text == text)
    ensures v.Other? ==> (Shorten(v.repr) == text <==> v.repr == text)
  {
  }

  lemma {:induction false} ShallowItems(items: seq<PyValue>, depth: nat)
    requires depth + 1 < MAX_DEPTH
    ensures Safe(Sanitize(List(items), depth), depth + 1) <==> Shallow(List(items), depth)
    ensures Safe(Sanitize(Tuple(items), depth), depth + 1) <==> Shallow(Tuple(items), depth)
    decreases MAX_DEPTH - depth, 0
  {
    forall i: nat | i < Kept(|items|)
      ensures Safe(Sanitize(items[i], depth + 1), depth + 2) <==> Shallow(items[i], depth + 1)
    {
      SafeBelowExactlyWhenShallow(items[i], depth + 1);
    }
    var out := Sanitize(List(items), depth).items;
    if Safe(List(out), depth + 1) {
      forall i: nat | i < Kept(|items|) ensures Shallow(items[i], depth + 1) {
        assert Safe(out[i], depth + 2);
      }
    }
  }

  lemma SafeField(e: Entry)
    requires !IsSecretKey(e.key)
    ensures SafeAt(e, 0) <==> Safe(e.value, 1)
  {
  }

  /**
   A tool's arguments are sanitized, stored as field `i` of an event's data among others that are already safe, and
   sanitized again with them. That second pass changes nothing exactly when the arguments reach level three only with
   the depth marker.
   */
  lemma WrappedStaysExactlyWhen(data: seq<Entry>, i: nat, v: PyValue)
    requires i < |data| <= MAX_ITEMS && DistinctKeys(data) && !IsSecretKey(data[i].key)
    requires data[i].value == Sanitize(v, 0) && forall j | 0 <= j < |data| && j != i :: SafeAt(data[j], 0)
    ensures Sanitize(Mapping(data), 0) == Mapping(data) <==> Shallow(v, 0)
  {
    hide SafeAt, Sanitize, Shallow, DistinctKeys, IsSecretKey;
    UnchangedExactlyWhenSafe(Mapping(data), 0);
    SafeBelowExactlyWhenShallow(v, 0);
    SafeField(data[i]);
  }

  /** Four nested lists come through the first pass whole, and lose a level when wrapped and sanitized again. */
  lemma WrappingLosesALevel()
    ensures var v := List([List([List([List([])])])]);
            Sanitize(v, 0) == v && !Safe(v, 1)
  {
    var v3 := List([]);
    var v2 := List([v3]);
    var v1 := List([v2]);
    assert Safe(v3, 3) && Safe(v2, 2) && Safe(v1, 1) && Safe(List([v1]), 0);
    SafeStays(List([v1]), 0);
    assert !Safe([v3][0], 4);
    assert !Safe([v2][0], 3);
    assert !Safe([v1][0], 2);
  }

  // ---- how big it can get ----

  datatype Size = Size(nodes: nat, height: nat)

  function Join(a: Size, b: Size): Size {
    Size(a.nodes + b.nodes, if a.height > b.height then a.height else b.height)
  }

  function SizeOf(v: PyValue): Size {
    match v
    case Mapping(entries) => var s := SizeOfEntries(entries); Size(1 + s.nodes, s.height)
    case List(items) => var s := SizeOfItems(items); Size(1 + s.nodes, s.height)
    case Tuple(items) => var s := SizeOfItems(items); Size(1 + s.nodes, s.height)
    case _ => Size(1, 0)
  }

  /** Together, and one level up. */
  function SizeOfItems(items: seq<PyValue>): Size {
    if items == [] then Size(0, 0)
    else var s := SizeOf(items[0]); Join(Size(s.nodes, s.height + 1), SizeOfItems(items[1..]))
  }

  function SizeOfEntries(entries: seq<Entry>): Size {
    if entries == [] then Size(0, 0)
    else var s := SizeOf(entries[0].value); Join(Size(s.nodes, s.height + 1), SizeOfEntries(entries[1..]))
  }

  /** The most nodes a value `depth` levels down can have. */
  function MostNodes(depth: nat): nat
    decreases MAX_DEPTH - depth
  {
    if depth >= MAX_DEPTH then 1 else 1 + MAX_ITEMS * MostNodes(depth + 1)
  }

  predicate Fits(s: Size, nodes: nat, height: nat) {
    s.nodes <= nodes && s.height <= height
  }

  lemma {:induction false} ItemsFit(items: seq<PyValue>, nodes: nat, height: nat)
    requires forall i | 0 <= i < |items| :: Fits(SizeOf(items[i]), nodes, height)
    ensures Fits(SizeOfItems(items), |items| * nodes, height + 1)
    decreases |items|
  {
    hide SizeOf;
    if items != [] {
      var rest := items[1..];
      assert forall i | 0 <= i < |rest| :: rest[i] == items[i + 1];
      assert Fits(SizeOf(items[0]), nodes, height);
      assert |items| * nodes == nodes + |rest| * nodes;
      ItemsFit(rest, nodes, height);
    }
  }

  lemma {:induction false} EntriesFit(entries: seq<Entry>, nodes: nat, height: nat)
    requires forall i | 0 <= i < |entries| :: Fits(SizeOf(entries[i].value), nodes, height)
    ensures Fits(SizeOfEntries(entries), |entries| * nodes, height + 1)
    decreases |entries|
  {
    hide SizeOf;
    if entries != [] {
      var rest := entries[1..];
      assert forall i | 0 <= i < |rest| :: rest[i] == entries[i + 1];
      assert Fits(SizeOf(entries[0].value), nodes, height);
      assert |entries| * nodes == nodes + |rest| * nodes;
      EntriesFit(rest, nodes, height);
    }
  }

  lemma FullIsMost(count: nat, nodes: nat)
    requires count <= MAX_ITEMS
    ensures count * nodes <= MAX_ITEMS * nodes
  {
  }

  lemma {:induction false} EntryFits(e: Entry, depth: nat)
    requires depth < MAX_DEPTH && SafeAt(e, depth)
    ensures Fits(SizeOf(e.value), MostNodes(depth + 1), MAX_DEPTH - depth - 1)
    decreases MAX_DEPTH - depth, 0
  {
    if !IsSecretKey(e.key) {
      SafeFits(e.value, depth + 1);
    }
  }

  lemma {:induction false} SafeFits(v: PyValue, depth: nat)
    requires depth <= MAX_DEPTH && Safe(v, depth)
    ensures Fits(SizeOf(v), MostNodes(depth), MAX_DEPTH - depth)
    decreases MAX_DEPTH - depth, 1
  {
    if depth < MAX_DEPTH {
      var nodes, height := MostNodes(depth + 1), MAX_DEPTH - depth - 1;
      match v {
        case Mapping(entries) =>
          forall i | 0 <= i < |entries| ensures Fits(SizeOf(entries[i].value), nodes, height) {
            EntryFits(entries[i], depth);
          }
          EntriesFit(entries, nodes, height);
          FullIsMost(|entries|, nodes);
        case List(items) =>
          forall i | 0 <= i < |items| ensures Fits(SizeOf(items[i]), nodes, height) {
            SafeFits(items[i], depth + 1);
          }
          ItemsFit(items, nodes, height);
          FullIsMost(|items|, nodes);
        case _ =>
      }
    }
  }

  /** The stored value has at most 1 + 50 + 50^2 + 50^3 + 50^4 nodes, nested at most four deep. */
  lemma SanitizedIsBounded(v: PyValue)
    ensures SizeOf(Sanitize(v, 0)).nodes <= 6377551 && SizeOf(Sanitize(v, 0)).height <= 4
  {
    SanitizedIsSafe(v, 0, 0);
    SafeFits(Sanitize(v, 0), 0);
    assert MostNodes(3) == 51 && MostNodes(2) == 2551 && MostNodes(1) == 127551;
  }

  // ---- what is not cut to size ----

  /** A cut string is longer than the limit it was cut to: only a string within the limit stays within it. */
  lemma CutStringsExceedTheLimit(s: string)
    ensures |Shorten(s)| <= MAX_STR <==> |s| <= MAX_STR
    ensures |Shorten(s)| <= 524
    ensures |s| > MAX_STR ==> |Shorten(s)| == 524 && Shorten(s) == s[..512] + "\U{2026}<truncated>"
  {
    assert |CUT| == 12;
  }

  /** Keys are never cut, however long. */
  lemma AnyKeyPassesWhole(key: string)
    ensures Sanitize(Mapping([Entry(key, None)]), 0) == Mapping([Entry(key, if IsSecretKey(key) then STARS else None)])
  {
    var entries := [Entry(key, None)];
    assert Filled(entries, 1, 0) == Put(Filled(entries, 0, 0), SafeEntry(entries[0], 0));
  }

  ghost predicate KeysWithin(v: PyValue, limit: nat) {
    match v
    case Mapping(entries) => forall i | 0 <= i < |entries| :: |entries[i].key| <= limit && KeysWithin(entries[i].value, limit)
    case List(items) => forall i | 0 <= i < |items| :: KeysWithin(items[i], limit)
    case Tuple(items) => forall i | 0 <= i < |items| :: KeysWithin(items[i], limit)
    case _ => true
  }

  /** The kept keys above level four. */
  ghost predicate KeptKeysWithin(v: PyValue, depth: nat, limit: nat)
    decreases MAX_DEPTH - depth
  {
    depth < MAX_DEPTH ==>
      match v
      case Mapping(entries) =>
        forall j: nat | IsKept(entries, Kept(|entries|), j) ::
          |entries[j].key| <= limit && (IsSecretKey(entries[j].key) || KeptKeysWithin(entries[j].value, depth + 1, limit))
      case List(items) => forall i: nat | i < Kept(|items|) :: KeptKeysWithin(items[i], depth + 1, limit)
      case Tuple(items) => forall i: nat | i < Kept(|items|) :: KeptKeysWithin(items[i], depth + 1, limit)
      case _ => true
  }

  lemma {:induction false} EntryKeysBounded(entries: seq<Entry>, depth: nat, limit: nat)
    requires depth < MAX_DEPTH
    ensures KeysWithin(Mapping(Filled(entries, Kept(|entries|), depth)), limit)
            <==> KeptKeysWithin(Mapping(entries), depth, limit)
    decreases MAX_DEPTH - depth, 0
  {
    var n := Kept(|entries|);
    var d := Filled(entries, n, depth);
    forall j: nat | IsKept(entries, n, j)
      ensures SafeEntry(entries[j], depth) in d
      ensures KeysWithin(SafeEntry(entries[j], depth).value, limit)
              <==> (IsSecretKey(entries[j].key) || KeptKeysWithin(entries[j].value, depth + 1, limit))
    {
      LastEntryWins(entries, n, j, depth);
      if !IsSecretKey(entries[j].key) {
        KeysBoundedExactlyWhen(entries[j].value, depth + 1, limit);
      }
    }
    if KeptKeysWithin(Mapping(entries), depth, limit) {
      forall i | 0 <= i < |d| ensures |d[i].key| <= limit && KeysWithin(d[i].value, limit) {
        var j := FilledComesFrom(entries, n, depth, d[i]);
      }
    }
    if KeysWithin(Mapping(d), limit) {
      forall j: nat | IsKept(entries, n, j)
        ensures |entries[j].key| <= limit && (IsSecretKey(entries[j].key) || KeptKeysWithin(entries[j].value, depth + 1, limit))
      {
        var i :| 0 <= i < |d| && d[i] == SafeEntry(entries[j], depth);
      }
    }
  }

  /** Every key of the stored value has at most `limit` characters exactly when every kept key of the input has. */
  lemma {:induction false} KeysBoundedExactlyWhen(v: PyValue, depth: nat, limit: nat)
    ensures KeysWithin(Sanitize(v, depth), limit) <==> KeptKeysWithin(v, depth, limit)
    decreases MAX_DEPTH - depth, 1
  {
    if depth < MAX_DEPTH {
      match v {
        case Mapping(entries) => EntryKeysBounded(entries, depth, limit);
        case List(items) => ItemKeysBounded(items, depth, limit);
        case Tuple(items) => ItemKeysBounded(items, depth, limit);
        case _ =>
      }
    }
  }

  lemma {:induction false} ItemKeysBounded(items: seq<PyValue>, depth: nat, limit: nat)
    requires depth < MAX_DEPTH
    ensures KeysWithin(Sanitize(List(items), depth), limit) <==> KeptKeysWithin(List(items), depth, limit)
    ensures KeysWithin(Sanitize(Tuple(items), depth), limit) <==> KeptKeysWithin(Tuple(items), depth, limit)
    decreases MAX_DEPTH - depth, 0
  {
    var out := Sanitize(List(items), depth).items;
    forall i: nat | i < Kept(|items|)
      ensures KeysWithin(out[i], limit) <==> KeptKeysWithin(items[i], depth + 1, limit)
    {
      KeysBoundedExactlyWhen(items[i], depth + 1, limit);
    }
    if KeysWithin(List(out), limit) {
      forall i: nat | i < Kept(|items|) ensures KeptKeysWithin(items[i], depth + 1, limit) {
        assert KeysWithin(out[i], limit);
      }
    }
  }

  // ---- nothing under a secret key gets through ----

  ghost predicate EntriesAgree(a: Entry, b: Entry)
    decreases a, 0
  {
    a.key == b.key && (IsSecretKey(a.key) || AgreeOutsideSecrets(a.value, b.value))
  }

  /** The same value up to what is stored under secret keys. */
  ghost predicate AgreeOutsideSecrets(v: PyValue, w: PyValue)
    decreases v, 1
  {
    match v
    case Mapping(entries) =>
      w.Mapping? && |entries| == |w.entries| && forall i | 0 <= i < |entries| :: EntriesAgree(entries[i], w.entries[i])
    case List(items) =>
      w.List? && |items| == |w.items| && forall i | 0 <= i < |items| :: AgreeOutsideSecrets(items[i], w.items[i])
    case Tuple(items) =>
      w.Tuple? && |items| == |w.items| && forall i | 0 <= i < |items| :: AgreeOutsideSecrets(items[i], w.items[i])
    case _ => v == w
  }

  lemma {:induction false} FilledAgree(v: seq<Entry>, w: seq<Entry>, n: nat, depth: nat)
    requires depth < MAX_DEPTH && n <= |v| == |w| && forall i | 0 <= i < |v| :: EntriesAgree(v[i], w[i])
    ensures Filled(v, n, depth) == Filled(w, n, depth)
    decreases MAX_DEPTH - depth, 0, n
  {
    if n > 0 {
      FilledAgree(v, w, n - 1, depth);
      assert EntriesAgree(v[n - 1], w[n - 1]);
      if !IsSecretKey(v[n - 1].key) {
        SecretsDoNotLeak(v[n - 1].value, w[n - 1].value, depth + 1);
      }
    }
  }

  /** What is stored does not depend on any value under a secret key, at any depth. */
  lemma {:induction false} SecretsDoNotLeak(v: PyValue, w: PyValue, depth: nat)
    requires AgreeOutsideSecrets(v, w)
    ensures Sanitize(v, depth) == Sanitize(w, depth)
    decreases MAX_DEPTH - depth, 1
  {
    if depth < MAX_DEPTH {
      match v {
        case Mapping(entries) => FilledAgree(entries, w.entries, Kept(|entries|), depth);
        case List(items) => ItemsAgree(items, w.items, depth);
        case Tuple(items) => ItemsAgree(items, w.items, depth);
        case _ =>
      }
    }
  }

  lemma {:induction false} ItemsAgree(v: seq<PyValue>, w: seq<PyValue>, depth: nat)
    requires depth < MAX_DEPTH && |v| == |w| && forall i | 0 <= i < |v| :: AgreeOutsideSecrets(v[i], w[i])
    ensures Sanitize(List(v), depth) == Sanitize(List(w), depth)
    ensures Sanitize(Tuple(v), depth) == Sanitize(Tuple(w), depth)
    decreases MAX_DEPTH - depth, 0
  {
    forall i | 0 <= i < |v| ensures Sanitize(v[i], depth + 1) == Sanitize(w[i], depth + 1) {
      SecretsDoNotLeak(v[i], w[i], depth + 1);
    }
  }
}
