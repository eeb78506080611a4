/**
  The canonical form behind a proposal's fingerprint: which material two proposals must share
  to get one fingerprint, at any depth and in any key order.
 */
module Fingerprints {
  import opened Options
  import opened ActionModel

  /**
    What is fingerprinted. A decimal is units / 10^scale; identifiers and timestamps
    come with their text (for a timestamp its UTC form). Binary floating point is left out.
   */
  datatype Value =
    | Text(text: string)
    | Whole(n: int)
    | Flag(b: bool)
    | Null
    | Identifier(id: string)
    | Amount(units: int, scale: nat)
    | Moment(utc: string, aware: bool)
    | List(items: seq<Value>)
    | Dict(entries: seq<Entry>)

  datatype Entry = Entry(key: string, value: Value)

  /** The canonical tree; its dictionaries are serialised with sorted keys, so they are maps. */
  datatype Tree =
    | TreeText(text: string) | TreeWhole(n: int) | TreeFlag(b: bool) | TreeNull
    | TreeList(items: seq<Tree>) | TreeDict(fields: map<string, Tree>)

  const EXCLUDED: set<string> := {
    "action_id", "action_request_id", "approval", "approval_required", "approval_status", "approved",
    "confirmation", "confirmation_required", "confirmation_status", "confirmed", "credential", "credentials",
    "gate", "gate_decision", "gate_decisions", "gates", "password", "prompt", "prompts", "secret", "secrets"}

  function LowerChar(c: char): char {
    if 'A' <= c <= 'Z' then c - 'A' + 'a' else c
  }

  function Lower(s: string): string {
    seq(|s|, i requires 0 <= i < |s| => LowerChar(s[i]))
  }

  predicate Excluded(key: string) { Lower(key) in EXCLUDED }

  function Power10(n: nat): (p: nat)
    ensures p >= 1
  {
    if n == 0 then 1 else 10 * Power10(n - 1)
  }

  /** The amount in cents, when it has at most two decimal places. */
  function Cents(units: int, scale: nat): Option<int> {
    if scale <= 2 then Some(units * Power10(2 - scale))
    else if units % Power10(scale - 2) == 0 then Some(units / Power10(scale - 2))
    else None
  }

  function Digits(n: nat): string {
    if n < 10 then [DigitOf(n)] else Digits(n / 10) + [DigitOf(n)]
  }

  function DigitOf(n: nat): char {
    ('0' as int + n % 10) as char
  }

  function Signed(negative: bool, whole: nat): string {
    if negative then "-" + Digits(whole) else Digits(whole)
  }

  function Decimals(magnitude: nat): string {
    ['.', DigitOf(magnitude / 10), DigitOf(magnitude)]
  }

  /** Two decimal places; a zero amount has no sign. */
  function MoneyText(cents: int): string {
    var magnitude := if cents < 0 then -cents else cents;
    Signed(cents < 0, magnitude / 100) + Decimals(magnitude)
  }

  /** None where canonicalisation raises. */
  function Canon(v: Value): Option<Tree>
    decreases v, 1, 0
  {
    match v
    case Text(text) => Some(TreeText(text))
    case Whole(n) => Some(TreeWhole(n))
    case Flag(b) => Some(TreeFlag(b))
    case Null => Some(TreeNull)
    case Identifier(id) => Some(TreeText(id))
    case Amount(units, scale) =>
      var cents := Cents(units, scale);
      if cents.None? then None else Some(TreeText(MoneyText(cents.value)))
    case Moment(utc, aware) => if aware then Some(TreeText(utc)) else None
    case List(items) =>
      var trees := CanonItems(v, |items|);
      if trees.None? then None else Some(TreeList(trees.value))
    case Dict(entries) =>
      var fields := CanonFields(v, |entries|);
      if fields.None? then None else Some(TreeDict(fields.value))
  }

  function CanonItems(v: Value, n: nat): Option<seq<Tree>>
    requires v.List? && n <= |v.items|
    decreases v, 0, n
  {
    if n == 0 then Some([])
    else
      var init, last := CanonItems(v, n - 1), Canon(v.items[n - 1]);
      if init.None? || last.None? then None else Some(init.value + [last.value])
  }

  /** Entries with an excluded key are skipped, unread. */
  function CanonFields(v: Value, n: nat): Option<map<string, Tree>>
    requires v.Dict? && n <= |v.entries|
    decreases v, 0, n
  {
    if n == 0 then Some(map[])
    else
      var init := CanonFields(v, n - 1);
      var e := v.entries[n - 1];
      if Excluded(e.key) then init
      else
        var last := Canon(e.value);
        if init.None? || last.None? then None else Some(init.value[e.key := last.value])
  }

  // ---- What the canonical form of a list or a dictionary holds ----

  /** A dictionary has each key once, at every depth. */
  predicate WellFormed(v: Value)
    decreases v
  {
    match v
    case List(items) => forall i | 0 <= i < |items| :: WellFormed(items[i])
    case Dict(entries) =>
      && (forall i, j | 0 <= i < j < |entries| :: entries[i].key != entries[j].key)
      && (forall i | 0 <= i < |entries| :: WellFormed(entries[i].value))
    case _ => true
  }

  lemma {:induction false} ItemsAreCanonical(v: Value, n: nat)
    requires v.List? && n <= |v.items|
    ensures CanonItems(v, n).Some? <==> forall i | 0 <= i < n :: Canon(v.items[i]).Some?
    ensures CanonItems(v, n).Some? ==>
              && |CanonItems(v, n).value| == n
              && forall i | 0 <= i < n :: Canon(v.items[i]) == Some(CanonItems(v, n).value[i])
  {
    if n > 0 { ItemsAreCanonical(v, n - 1); }
  }

  /** A kept entry's canonical value is the field of its key, and there is no other field. */
  lemma {:induction false} FieldsAreCanonical(v: Value, n: nat)
    requires v.Dict? && WellFormed(v) && n <= |v.entries|
    ensures CanonFields(v, n).Some? <==>
              forall i | 0 <= i < n && !Excluded(v.entries[i].key) :: Canon(v.entries[i].value).Some?
    ensures CanonFields(v, n).Some? ==>
              var fields := CanonFields(v, n).value;
              && (forall i | 0 <= i < n && !Excluded(v.entries[i].key) ::
                    v.entries[i].key in fields && Canon(v.entries[i].value) == Some(fields[v.entries[i].key]))
              && (forall k | k in fields :: exists i :: 0 <= i < n && v.entries[i].key == k && !Excluded(k))
  {
    hide Excluded;
    if n > 0 {
      FieldsAreCanonical(v, n - 1);
      if CanonFields(v, n).Some? && !Excluded(v.entries[n - 1].key) {
        var fields, before := CanonFields(v, n).value, CanonFields(v, n - 1).value;
        forall k | k in fields
          ensures exists i :: 0 <= i < n && v.entries[i].key == k && !Excluded(k)
        {
          if k == v.entries[n - 1].key {
          } else {
            var i :| 0 <= i < n - 1 && v.entries[i].key == k && !Excluded(k);
          }
        }
      }
    }
  }

  // ---- The same material ----

  predicate Leaf(v: Value) { !v.List? && !v.Dict? }

  ghost predicate HasKept(entries: seq<Entry>, key: string) {
    exists i :: 0 <= i < |entries| && entries[i].key == key && !Excluded(key)
  }

  predicate Textual(v: Value) { v.Text? || v.Identifier? || v.Amount? || v.Moment? }

  /** How a textual leaf is written: an amount with two decimal places, a moment in UTC. */
  function Written(v: Value): string
    requires Textual(v)
  {
    match v
    case Text(text) => text
    case Identifier(id) => id
    case Moment(utc, _) => utc
    case Amount(units, scale) => if Cents(units, scale).Some? then MoneyText(Cents(units, scale).value) else ""
  }

  /** The same number, flag or null, or textual leaves written alike. */
  predicate SameLeaf(a: Value, b: Value) {
    || ((a.Whole? || a.Flag? || a.Null?) && a == b)
    || (Textual(a) && Textual(b) && Written(a) == Written(b))
  }

  /**
    Same leaves up to rendering, same lists in order, same dictionaries whatever the order of
    their entries and whatever their excluded keys hold.
   */
  ghost predicate SameMaterial(a: Value, b: Value)
    decreases a
  {
    if a.List? then
      && b.List? && |a.items| == |b.items|
      && forall i | 0 <= i < |a.items| :: SameMaterial(a.items[i], b.items[i])
    else if a.Dict? then
      && b.Dict?
      && (forall k :: HasKept(a.entries, k) <==> HasKept(b.entries, k))
      && (forall i, j | 0 <= i < |a.entries| && 0 <= j < |b.entries| && a.entries[i].key == b.entries[j].key
                        && !Excluded(a.entries[i].key) ::
            SameMaterial(a.entries[i].value, b.entries[j].value))
    else SameLeaf(a, b)
  }

  lemma LeavesAreText(v: Value)
    requires Leaf(v) && Canon(v).Some?
    ensures !Canon(v).value.TreeList? && !Canon(v).value.TreeDict?
  {
  }

  lemma LeavesAreTheirText(a: Value, b: Value)
    requires Leaf(a) && Leaf(b) && Canon(a).Some? && Canon(b).Some?
    ensures SameLeaf(a, b) <==> Canon(a) == Canon(b)
  {
    hide MoneyText, Cents;
  }

  lemma {:induction false} SameTreeSameList(a: Value, b: Value)
    requires a.List? && b.List? && WellFormed(a) && WellFormed(b) && Canon(a).Some? && Canon(b).Some?
    requires forall i | 0 <= i < |a.items| && i < |b.items| ::
               SameMaterial(a.items[i], b.items[i]) <==> Canon(a.items[i]) == Canon(b.items[i])
    ensures SameMaterial(a, b) <==> Canon(a) == Canon(b)
  {
    ItemsAreCanonical(a, |a.items|);
    ItemsAreCanonical(b, |b.items|);
    var s, t := CanonItems(a, |a.items|).value, CanonItems(b, |b.items|).value;
    if SameMaterial(a, b) {
      assert s == t;
    }
    if Canon(a) == Canon(b) {
      forall i | 0 <= i < |a.items|
        ensures SameMaterial(a.items[i], b.items[i])
      {
        assert s[i] == t[i];
      }
    }
  }

  lemma KeptFields(v: Value)
    requires v.Dict? && WellFormed(v) && Canon(v).Some?
    ensures CanonFields(v, |v.entries|).Some? && Canon(v).value == TreeDict(CanonFields(v, |v.entries|).value)
    ensures forall k :: HasKept(v.entries, k) <==> k in CanonFields(v, |v.entries|).value
    ensures forall i | 0 <= i < |v.entries| && !Excluded(v.entries[i].key) ::
              && v.entries[i].key in CanonFields(v, |v.entries|).value
              && Canon(v.entries[i].value) == Some(CanonFields(v, |v.entries|).value[v.entries[i].key])
  {
    hide Excluded;
    FieldsAreCanonical(v, |v.entries|);
  }

  lemma {:induction false} SameTreeSameDict(a: Value, b: Value)
    requires a.Dict? && b.Dict? && WellFormed(a) && WellFormed(b) && Canon(a).Some? && Canon(b).Some?
    requires forall i, j | 0 <= i < |a.entries| && 0 <= j < |b.entries| && a.entries[i].key == b.entries[j].key
                           && !Excluded(a.entries[i].key) ::
               (SameMaterial(a.entries[i].value, b.entries[j].value) <==>
                 Canon(a.entries[i].value) == Canon(b.entries[j].value))
    ensures SameMaterial(a, b) <==> Canon(a) == Canon(b)
  {
    hide Excluded, WellFormed, CanonFields;
    KeptFields(a);
    KeptFields(b);
    var s, t := CanonFields(a, |a.entries|).value, CanonFields(b, |b.entries|).value;
    if SameMaterial(a, b) {
      forall k | k in s
        ensures k in t && s[k] == t[k]
      {
        assert HasKept(a.entries, k) && HasKept(b.entries, k);
        var i :| 0 <= i < |a.entries| && a.entries[i].key == k && !Excluded(k);
        var j :| 0 <= j < |b.entries| && b.entries[j].key == k && !Excluded(k);
        assert SameMaterial(a.entries[i].value, b.entries[j].value);
      }
      assert s.Keys == t.Keys;
      assert s == t;
    }
    if Canon(a) == Canon(b) {
      assert s == t;
      forall i, j | 0 <= i < |a.entries| && 0 <= j < |b.entries| && a.entries[i].key == b.entries[j].key
                    && !Excluded(a.entries[i].key)
        ensures SameMaterial(a.entries[i].value, b.entries[j].value)
      {
        assert Canon(a.entries[i].value) == Canon(b.entries[j].value);
      }
    }
  }

  /**
    Two values that can be fingerprinted have one canonical form exactly when they are the
    same material: key order never matters, excluded keys never matter, everything else does.
   */
  lemma {:induction false} CanonicalFormIsTheMaterial(a: Value, b: Value)
    requires WellFormed(a) && WellFormed(b) && Canon(a).Some? && Canon(b).Some?
    ensures SameMaterial(a, b) <==> Canon(a) == Canon(b)
    decreases a
  {
    hide Excluded, CanonFields, CanonItems;
    if a.List? && b.List? {
      ListPartsAreCanonical(a);
      ListPartsAreCanonical(b);
      forall i | 0 <= i < |a.items| && i < |b.items|
        ensures SameMaterial(a.items[i], b.items[i]) <==> Canon(a.items[i]) == Canon(b.items[i])
      {
        CanonicalFormIsTheMaterial(a.items[i], b.items[i]);
      }
      SameTreeSameList(a, b);
    } else if a.Dict? && b.Dict? {
      KeptFields(a);
      KeptFields(b);
      forall i, j | 0 <= i < |a.entries| && 0 <= j < |b.entries| && a.entries[i].key == b.entries[j].key
                    && !Excluded(a.entries[i].key)
        ensures SameMaterial(a.entries[i].value, b.entries[j].value) <==>
                  Canon(a.entries[i].value) == Canon(b.entries[j].value)
      {
        CanonicalFormIsTheMaterial(a.entries[i].value, b.entries[j].value);
      }
      SameTreeSameDict(a, b);
    } else {
      if Leaf(a) { LeavesAreText(a); }
      if Leaf(b) { LeavesAreText(b); }
      if Leaf(a) && Leaf(b) { LeavesAreTheirText(a, b); }
    }
  }

  lemma ListPartsAreCanonical(v: Value)
    requires v.List? && Canon(v).Some?
    ensures forall i | 0 <= i < |v.items| :: Canon(v.items[i]).Some?
  {
    ItemsAreCanonical(v, |v.items|);
  }

  // ---- What can be fingerprinted ----

  /** The keys that never count, in any casing. */
  predicate NeverCounts(key: string) {
    SpelledAs(key, {"action_id", "action_request_id"})
    || SpelledAs(key, {"approval", "approval_required", "approval_status", "approved"})
    || SpelledAs(key, {"confirmation", "confirmation_required", "confirmation_status", "confirmed"})
    || SpelledAs(key, {"gate", "gate_decision", "gate_decisions", "gates"})
    || SpelledAs(key, {"credential", "credentials", "password", "prompt", "prompts", "secret", "secrets"})
  }

  /** Letter by letter one of these words, upper-case letters for lower-case ones allowed. */
  predicate SpelledAs(key: string, words: set<string>) {
    exists word | word in words :: SameSpelling(key, word)
  }

  predicate SameSpelling(key: string, word: string) {
    && |key| == |word|
    && forall i | 0 <= i < |key| ::
         if 'A' <= key[i] <= 'Z' then word[i] as int == key[i] as int + 32 else word[i] == key[i]
  }

  lemma SpellingIsLower(key: string, word: string)
    ensures SameSpelling(key, word) <==> Lower(key) == word
  {
    assert forall i | 0 <= i < |key| :: Lower(key)[i] == LowerChar(key[i]);
  }

  lemma ExcludedKeysNeverCount(key: string)
    ensures Excluded(key) <==> NeverCounts(key)
  {
    hide SameSpelling, Lower;
    forall word: string
      ensures SameSpelling(key, word) <==> Lower(key) == word
    {
      SpellingIsLower(key, word);
    }
  }

  /** Every amount is a whole number of cents and every moment has its zone, wherever the key counts. */
  ghost predicate Presentable(v: Value)
    decreases v
  {
    match v
    case Amount(units, scale) => exists cents :: WorthCents(units, scale, cents)
    case Moment(_, aware) => aware
    case List(items) => forall i | 0 <= i < |items| :: Presentable(items[i])
    case Dict(entries) => forall i | 0 <= i < |entries| && !NeverCounts(entries[i].key) :: Presentable(entries[i].value)
    case _ => true
  }

  /** Canonicalisation raises exactly on a fractional cent or a naive moment outside the excluded keys. */
  lemma {:induction false} CanonicalExactlyWhenPresentable(v: Value)
    requires WellFormed(v)
    ensures Canon(v).Some? <==> Presentable(v)
    decreases v
  {
    hide Excluded, NeverCounts, WorthCents;
    match v
    case Amount(units, scale) =>
      forall cents
        ensures Cents(units, scale) == Some(cents) <==> WorthCents(units, scale, cents)
      {
        AmountsAreCents(units, scale, cents);
      }
      if Cents(units, scale).Some? { assert WorthCents(units, scale, Cents(units, scale).value); }
    case List(items) =>
      ItemsAreCanonical(v, |items|);
      forall i | 0 <= i < |items|
        ensures Canon(items[i]).Some? <==> Presentable(items[i])
      {
        CanonicalExactlyWhenPresentable(items[i]);
      }
    case Dict(entries) =>
      FieldsAreCanonical(v, |entries|);
      forall i | 0 <= i < |entries|
        ensures Canon(entries[i].value).Some? <==> Presentable(entries[i].value)
        ensures Excluded(entries[i].key) <==> NeverCounts(entries[i].key)
      {
        CanonicalExactlyWhenPresentable(entries[i].value);
        ExcludedKeysNeverCount(entries[i].key);
      }
    case _ =>
  }

  // ---- Idempotence ----

  /** The canonical tree written back as a value, its dictionary entries in any order. */
  ghost predicate Writes(v: Value, t: Tree)
    decreases t
  {
    match t
    case TreeText(text) => v == Text(text)
    case TreeWhole(n) => v == Whole(n)
    case TreeFlag(b) => v == Flag(b)
    case TreeNull => v == Null
    case TreeList(items) =>
      v.List? && |v.items| == |items| && forall i | 0 <= i < |items| :: Writes(v.items[i], items[i])
    case TreeDict(fields) =>
      && v.Dict?
      && (forall i, j | 0 <= i < j < |v.entries| :: v.entries[i].key != v.entries[j].key)
      && (forall i | 0 <= i < |v.entries| ::
            v.entries[i].key in fields && Writes(v.entries[i].value, fields[v.entries[i].key]))
      && (forall k | k in fields :: exists i :: 0 <= i < |v.entries| && v.entries[i].key == k)
  }

  predicate Clean(t: Tree)
    decreases t
  {
    match t
    case TreeList(items) => forall i | 0 <= i < |items| :: Clean(items[i])
    case TreeDict(fields) => forall k | k in fields :: !Excluded(k) && Clean(fields[k])
    case _ => true
  }

  lemma {:induction false} CanonicalTreesAreClean(v: Value)
    requires WellFormed(v) && Canon(v).Some?
    ensures Clean(Canon(v).value)
    decreases v
  {
    hide Excluded;
    match v
    case List(items) =>
      ItemsAreCanonical(v, |items|);
      forall i | 0 <= i < |items| { CanonicalTreesAreClean(items[i]); }
    case Dict(entries) =>
      FieldsAreCanonical(v, |entries|);
      var fields := CanonFields(v, |entries|).value;
      forall k | k in fields
        ensures !Excluded(k) && Clean(fields[k])
      {
        var i :| 0 <= i < |entries| && entries[i].key == k && !Excluded(k);
        CanonicalTreesAreClean(entries[i].value);
      }
    case _ =>
  }

  lemma {:induction false} WrittenTreesAreWellFormed(v: Value, t: Tree)
    requires Writes(v, t)
    ensures WellFormed(v)
    decreases t
  {
    match t
    case TreeList(items) =>
      forall i | 0 <= i < |items| { WrittenTreesAreWellFormed(v.items[i], items[i]); }
    case TreeDict(fields) =>
      forall i | 0 <= i < |v.entries| { WrittenTreesAreWellFormed(v.entries[i].value, fields[v.entries[i].key]); }
    case _ =>
  }

  lemma FixedItems(v: Value, items: seq<Tree>)
    requires v.List? && |v.items| == |items|
    requires forall i | 0 <= i < |items| :: Canon(v.items[i]) == Some(items[i])
    ensures Canon(v) == Some(TreeList(items))
  {
    hide Excluded;
    ItemsAreCanonical(v, |items|);
    assert CanonItems(v, |items|).value == items;
  }

  lemma FixedFields(v: Value, fields: map<string, Tree>)
    requires v.Dict? && WellFormed(v) && forall k | k in fields :: !Excluded(k)
    requires forall i | 0 <= i < |v.entries| ::
               v.entries[i].key in fields && Canon(v.entries[i].value) == Some(fields[v.entries[i].key])
    requires forall k | k in fields :: exists i :: 0 <= i < |v.entries| && v.entries[i].key == k
    ensures Canon(v) == Some(TreeDict(fields))
  {
    hide Excluded, WellFormed, CanonFields;
    FieldsAreCanonical(v, |v.entries|);
    var canonical := CanonFields(v, |v.entries|).value;
    assert canonical.Keys == fields.Keys;
    assert canonical == fields;
  }

  lemma {:induction false} CleanTreesAreFixed(v: Value, t: Tree)
    requires Writes(v, t) && Clean(t)
    ensures Canon(v) == Some(t)
    decreases t
  {
    hide Excluded, CanonItems, CanonFields, WellFormed;
    match t
    case TreeList(items) =>
      forall i | 0 <= i < |items|
        ensures Canon(v.items[i]) == Some(items[i])
      {
        CleanTreesAreFixed(v.items[i], items[i]);
      }
      FixedItems(v, items);
    case TreeDict(fields) =>
      WrittenTreesAreWellFormed(v, t);
      forall i | 0 <= i < |v.entries|
        ensures Canon(v.entries[i].value) == Some(fields[v.entries[i].key])
      {
        CleanTreesAreFixed(v.entries[i].value, fields[v.entries[i].key]);
      }
      FixedFields(v, fields);
    case _ =>
  }

  /** Canonicalising a canonical form, in whatever order its keys are written, gives it back. */
  lemma CanonIsIdempotent(v: Value, again: Value)
    requires WellFormed(v) && Canon(v).Some? && Writes(again, Canon(v).value)
    ensures Canon(again) == Canon(v)
  {
    CanonicalTreesAreClean(v);
    CleanTreesAreFixed(again, Canon(v).value);
  }

  // ---- Amounts ----

  lemma {:induction false} Power10Adds(m: nat, n: nat)
    ensures Power10(m + n) == Power10(m) * Power10(n)
  {
    if m > 0 { Power10Adds(m - 1, n); }
  }

  /** The cents an amount stands for, if a whole number of them. */
  predicate WorthCents(units: int, scale: nat, cents: int) {
    cents * Power10(scale) == units * 100
  }

  lemma FewPlaces(units: int, scale: nat)
    requires scale <= 2
    ensures WorthCents(units, scale, units * Power10(2 - scale))
  {
    assert Power10(1) == 10 * Power10(0);
    assert Power10(2) == 10 * Power10(1);
    assert scale == 0 || scale == 1 || scale == 2;
  }

  lemma Cancel(x: int, y: int, p: int)
    requires p > 0 && x * p == y * p
    ensures x == y
  {
    assert (x - y) * p == 0;
  }

  lemma Regroup(cents: int, p: int, units: int)
    ensures cents * (p * 100) == units * 100 <==> cents * p == units
  {
    assert cents * (p * 100) == (cents * p) * 100;
  }

  lemma ManyPlaces(units: int, scale: nat, cents: int)
    requires scale > 2
    ensures WorthCents(units, scale, cents) <==> cents * Power10(scale - 2) == units
  {
    Power10Adds(scale - 2, 2);
    assert Power10(1) == 10 * Power10(0);
    assert Power10(2) == 10 * Power10(1);
    Regroup(cents, Power10(scale - 2), units);
  }

  lemma DivisionIsExact(units: int, p: int, cents: int)
    requires p > 0
    ensures cents * p == units <==> units % p == 0 && cents == units / p
  {
    var q, r := units / p, units % p;
    assert units == q * p + r;
    if cents * p == units {
      assert (cents - q) * p == r;
      NoMultipleBetween(cents - q, p, r);
    }
  }

  lemma NoMultipleBetween(k: int, p: int, r: int)
    requires p > 0 && 0 <= r < p && k * p == r
    ensures k == 0 && r == 0
  {
    MultiplesAreFar(k, p);
  }

  lemma MultiplesAreFar(k: int, p: int)
    requires p > 0
    ensures k >= 1 ==> k * p >= p
    ensures k <= -1 ==> k * p <= -p
  {
  }

  /** An amount is accepted exactly when it is a whole number of cents, and then as that number. */
  lemma AmountsAreCents(units: int, scale: nat, cents: int)
    ensures Cents(units, scale) == Some(cents) <==> WorthCents(units, scale, cents)
  {
    if scale <= 2 {
      FewPlaces(units, scale);
      if WorthCents(units, scale, cents) { Cancel(cents, units * Power10(2 - scale), Power10(scale)); }
    } else {
      ManyPlaces(units, scale, cents);
      DivisionIsExact(units, Power10(scale - 2), cents);
    }
  }

  lemma {:induction false} DigitsAreDigits(n: nat)
    ensures Digits(n) != [] && Digits(n)[0] != '-'
  {
    if n >= 10 {
      DigitsAreDigits(n / 10);
    }
  }

  predicate AllDigits(s: string) {
    forall i | 0 <= i < |s| :: '0' <= s[i] <= '9'
  }

  /** The number a decimal numeral stands for. */
  function Reads(s: string): nat
    requires AllDigits(s)
  {
    if s == [] then 0 else 10 * Reads(s[..|s| - 1]) + (s[|s| - 1] as int - '0' as int)
  }

  lemma {:induction false} DigitsRead(n: nat)
    ensures AllDigits(Digits(n)) && Reads(Digits(n)) == n
    ensures Digits(n) != [] && (Digits(n)[0] == '0' ==> |Digits(n)| == 1)
  {
    if n >= 10 {
      DigitsRead(n / 10);
      assert Digits(n)[..|Digits(n)| - 1] == Digits(n / 10);
    } else {
      assert Digits(n)[..0] == [];
    }
  }

  lemma DigitsTellApart(m: nat, n: nat)
    requires Digits(m) == Digits(n)
    ensures m == n
  {
    hide Digits, Reads;
    DigitsRead(m);
    DigitsRead(n);
  }

  lemma SignedTellsApart(p: bool, m: nat, q: bool, n: nat)
    requires Signed(p, m) == Signed(q, n)
    ensures p == q && m == n
  {
    hide Digits;
    DigitsAreDigits(m);
    DigitsAreDigits(n);
    assert p ==> Signed(p, m)[0] == '-' && Signed(p, m)[1..] == Digits(m);
    assert q ==> Signed(q, n)[0] == '-' && Signed(q, n)[1..] == Digits(n);
    DigitsTellApart(m, n);
  }

  lemma SameDigit(m: nat, n: nat)
    requires DigitOf(m) == DigitOf(n)
    ensures m % 10 == n % 10
  {
  }

  lemma SplitOff(m: nat)
    ensures m == 100 * (m / 100) + 10 * ((m / 10) % 10) + m % 10
  {
    assert m == 10 * (m / 10) + m % 10;
    assert m / 10 == 10 * ((m / 10) / 10) + (m / 10) % 10;
    assert (m / 10) / 10 == m / 100;
  }

  lemma SameDecimals(m: nat, n: nat)
    requires Decimals(m) == Decimals(n) && m / 100 == n / 100
    ensures m == n
  {
    hide DigitOf;
    assert Decimals(m)[1] == Decimals(n)[1] && Decimals(m)[2] == Decimals(n)[2];
    SameDigit(m, n);
    SameDigit(m / 10, n / 10);
    SplitOff(m);
    SplitOff(n);
  }

  /** Different amounts are rendered differently, so amounts never share a canonical form. */
  lemma MoneyTellsApart(a: int, b: int)
    requires MoneyText(a) == MoneyText(b)
    ensures a == b
  {
    hide Signed;
    var m, n := if a < 0 then -a else a, if b < 0 then -b else b;
    SameTail(Signed(a < 0, m / 100), Signed(b < 0, n / 100), Decimals(m), Decimals(n));
    SignedTellsApart(a < 0, m / 100, b < 0, n / 100);
    SameDecimals(m, n);
  }

  // ---- How an amount reads ----

  lemma OneMoreDigit(s: string, n: nat)
    requires AllDigits(s)
    ensures AllDigits(s + [DigitOf(n)]) && Reads(s + [DigitOf(n)]) == 10 * Reads(s) + n % 10
  {
    assert (s + [DigitOf(n)])[..|s|] == s;
  }

  /**
    An amount is written as its cents read: a minus sign exactly for a negative one, the whole
    units without leading zeros, a point, and the two digits of the cents.
   */
  lemma MoneyReadsAsItsCents(cents: int) returns (whole: string, tenth: char, hundredth: char)
    ensures MoneyText(cents) == (if cents < 0 then "-" else "") + whole + "." + [tenth, hundredth]
    ensures whole != [] && (whole[0] == '0' ==> |whole| == 1)
    ensures AllDigits(whole + [tenth] + [hundredth])
    ensures Reads(whole + [tenth] + [hundredth]) == if cents < 0 then -cents else cents
  {
    hide Reads, AllDigits;
    var magnitude := if cents < 0 then -cents else cents;
    whole, tenth, hundredth := Digits(magnitude / 100), DigitOf(magnitude / 10), DigitOf(magnitude);
    DigitsRead(magnitude / 100);
    OneMoreDigit(whole, magnitude / 10);
    OneMoreDigit(whole + [tenth], magnitude);
    SplitOff(magnitude);
    assert MoneyText(cents) == (if cents < 0 then "-" else "") + whole + "." + [tenth, hundredth];
  }

  lemma SameTail(s: string, t: string, x: string, y: string)
    requires s + x == t + y && |x| == |y|
    ensures s == t && x == y
  {
    assert s == (s + x)[..|s|] && t == (t + y)[..|t|];
    assert x == (s + x)[|s|..] && y == (t + y)[|t|..];
  }

  // ---- The envelope ----

  datatype Envelope = Envelope(
    tenant: Uuid, customer: Uuid, kind: ActionType, schema: string, targets: multiset<Uuid>,
    payload: Tree, material: Tree)

  ghost predicate Injective(hash: Envelope -> Fingerprint) {
    forall a, b :: hash(a) == hash(b) ==> a == b
  }

  /** Sorting the targets makes their order invisible, so they are a multiset. */
  function FingerprintOf(
    hash: Envelope -> Fingerprint, tenant: Uuid, customer: Uuid, kind: ActionType, schema: string,
    targets: seq<Uuid>, payload: Value, material: Value): Option<Fingerprint>
  {
    var p, m := Canon(payload), Canon(material);
    if p.None? || m.None? then None
    else Some(hash(Envelope(tenant, customer, kind, schema, multiset(targets), p.value, m.value)))
  }

  /** Two fingerprints are equal exactly when everything in them is: whose, what, about what, and the material. */
  lemma FingerprintsTellActions(hash: Envelope -> Fingerprint, a: ActionIdentity, b: ActionIdentity,
    payload1: Value, material1: Value, payload2: Value, material2: Value)
    requires Injective(hash)
    requires WellFormed(payload1) && WellFormed(material1) && WellFormed(payload2) && WellFormed(material2)
    requires Presentable(payload1) && Presentable(material1) && Presentable(payload2) && Presentable(material2)
    ensures var f1 := FingerprintOf(hash, a.tenant, a.customer, a.proposal.Kind(), a.schemaVersion,
                                    a.proposal.Targets(), payload1, material1);
      var f2 := FingerprintOf(hash, b.tenant, b.customer, b.proposal.Kind(), b.schemaVersion,
                              b.proposal.Targets(), payload2, material2);
      f1 == f2 <==>
        && a.tenant == b.tenant && a.customer == b.customer && a.proposal.Kind() == b.proposal.Kind()
        && a.schemaVersion == b.schemaVersion && multiset(a.proposal.Targets()) == multiset(b.proposal.Targets())
        && SameMaterial(payload1, payload2) && SameMaterial(material1, material2)
  {
    hide SameMaterial, WellFormed, Canon, Presentable;
    CanonicalExactlyWhenPresentable(payload1);
    CanonicalExactlyWhenPresentable(material1);
    CanonicalExactlyWhenPresentable(payload2);
    CanonicalExactlyWhenPresentable(material2);
    CanonicalFormIsTheMaterial(payload1, payload2);
    CanonicalFormIsTheMaterial(material1, material2);
  }

  /** One action's fingerprint at two moments: equal exactly when payload and material are the same. */
  lemma FingerprintsTellMaterial(
    hash: Envelope -> Fingerprint, fixed: ActionIdentity,
    payload1: Value, material1: Value, payload2: Value, material2: Value)
    requires Injective(hash)
    requires WellFormed(payload1) && WellFormed(material1) && WellFormed(payload2) && WellFormed(material2)
    requires Canon(payload1).Some? && Canon(material1).Some? && Canon(payload2).Some? && Canon(material2).Some?
    ensures var f1 := FingerprintOf(hash, fixed.tenant, fixed.customer, fixed.proposal.Kind(), fixed.schemaVersion,
                                    fixed.proposal.Targets(), payload1, material1);
      var f2 := FingerprintOf(hash, fixed.tenant, fixed.customer, fixed.proposal.Kind(), fixed.schemaVersion,
                              fixed.proposal.Targets(), payload2, material2);
      f1 == f2 <==> SameMaterial(payload1, payload2) && SameMaterial(material1, material2)
  {
    hide SameMaterial, WellFormed, Canon;
    CanonicalFormIsTheMaterial(payload1, payload2);
    CanonicalFormIsTheMaterial(material1, material2);
  }

  /** The fingerprint was taken of this payload and material, in the action's own scope. */
  ghost predicate TakenOf(
    f: Fingerprint, hash: Envelope -> Fingerprint, fixed: ActionIdentity, payload: Value, material: Value)
  {
    && WellFormed(payload) && WellFormed(material) && Canon(payload).Some? && Canon(material).Some?
    && FingerprintOf(hash, fixed.tenant, fixed.customer, fixed.proposal.Kind(), fixed.schemaVersion,
                     fixed.proposal.Targets(), payload, material) == Some(f)
  }

  lemma OneFingerprintOneMaterial(
    f: Fingerprint, hash: Envelope -> Fingerprint, fixed: ActionIdentity, payload: Value, first: Value, second: Value)
    requires Injective(hash) && TakenOf(f, hash, fixed, payload, first) && TakenOf(f, hash, fixed, payload, second)
    ensures SameMaterial(first, second)
  {
    hide SameMaterial, WellFormed, Canon;
    FingerprintsTellMaterial(hash, fixed, payload, first, payload, second);
  }
}
