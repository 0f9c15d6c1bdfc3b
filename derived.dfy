/** src/utils/derived.ts: the values of derived fields. A derived field
    names its parent fields and a formula; its value is computed from the
    parents' current values, keyed by their normalised labels. */
module Derived {
  import opened Options
  import opened FormTypes
  import JsText
  import BasicMath
  import Constants
  import opened SeqFacts

  // ---------------------------------------------------------------------
  // Substitution keys

  predicate IsUpper(c: char) {
    'A' <= c <= 'Z'
  }

  /** `text.toLowerCase().replace(/\s+/g, '_')`: ASCII letters lower-cased
      and every run of white space replaced by one `_`. */
  function NormaliseKey(text: string): string
    decreases |text|
  {
    if text == [] then []
    else if JsText.IsSpace(text[0]) then "_" + NormaliseKey(JsText.TrimStart(text))
    else [JsText.LowerChar(text[0])] + NormaliseKey(text[1..])
  }

  /** A key has no white space and no upper-case letter. */
  lemma {:induction false} NormaliseKeyShape(text: string)
    ensures BasicMath.NoSpace(NormaliseKey(text))
    ensures forall i :: 0 <= i < |NormaliseKey(text)| ==> !IsUpper(NormaliseKey(text)[i])
    decreases |text|
  {
    hide JsText.IsSpace;
    if text != [] {
      KeyCharsNotSpace(text[0]);
      var k := NormaliseKey(text);
      var rest := if JsText.IsSpace(text[0]) then JsText.TrimStart(text) else text[1..];
      var c := if JsText.IsSpace(text[0]) then '_' else JsText.LowerChar(text[0]);
      NormaliseKeyShape(rest);
      assert k == [c] + NormaliseKey(rest);
      forall i | 0 <= i < |k| ensures !JsText.IsSpace(k[i]) && !IsUpper(k[i]) {
        if i > 0 {
          assert k[i] == NormaliseKey(rest)[i - 1];
        }
      }
    }
  }

  /** The characters a key is made of are no white space. */
  lemma KeyCharsNotSpace(c: char)
    ensures !JsText.IsSpace('_')
    ensures !JsText.IsSpace(c) ==> !JsText.IsSpace(JsText.LowerChar(c))
  {
  }

  /** Lower-case text is its own lower-case form. */
  lemma {:induction false} ToLowerKeepsLower(s: string)
    requires forall i :: 0 <= i < |s| ==> !IsUpper(s[i])
    ensures JsText.ToLower(s) == s
  {
    var l := JsText.ToLower(s);
    assert forall i :: 0 <= i < |s| ==> l[i] == s[i];
  }

  lemma NoSpaceTail(s: string)
    requires s != [] && BasicMath.NoSpace(s)
    ensures BasicMath.NoSpace(s[1..])
  {
    forall i | 0 <= i < |s[1..]| ensures !JsText.IsSpace(s[1..][i]) {
      assert s[1..][i] == s[i + 1];
    }
  }

  /** A text without white space normalises to its lower-case form. */
  lemma {:induction false} NormaliseKeyWithoutSpace(text: string)
    requires BasicMath.NoSpace(text)
    ensures NormaliseKey(text) == JsText.ToLower(text)
  {
    hide JsText.IsSpace;
    if text != [] {
      NoSpaceTail(text);
      NormaliseKeyWithoutSpace(text[1..]);
    }
  }

  /** Normalising a key a second time changes nothing. */
  lemma NormaliseKeyIdempotent(text: string)
    ensures NormaliseKey(NormaliseKey(text)) == NormaliseKey(text)
  {
    var k := NormaliseKey(text);
    NormaliseKeyShape(text);
    NormaliseKeyWithoutSpace(k);
    ToLowerKeepsLower(k);
  }

  // ---------------------------------------------------------------------
  // The `parentValues` object

  /** The entries of a JavaScript object, in insertion order. */
  type Entries = seq<(string, Value)>

  /** `obj[k]`; a missing key reads as undefined. */
  function Get(e: Entries, k: string): Value {
    if e == [] then Null
    else if e[0].0 == k then e[0].1
    else Get(e[1..], k)
  }

  /** Whether `k in obj`. */
  predicate HasKey(e: Entries, k: string) {
    e != [] && (e[0].0 == k || HasKey(e[1..], k))
  }

  /** No key occurs twice. */
  predicate DistinctKeys(e: Entries) {
    e == [] || (!HasKey(e[1..], e[0].0) && DistinctKeys(e[1..]))
  }

  /** `obj[k] = v`: a key already present keeps its place and takes the new
      value; a new key goes at the end. */
  function Put(e: Entries, k: string, v: Value): (r: Entries)
    ensures HasKey(e, k) ==> |r| == |e|
    ensures !HasKey(e, k) ==> r == e + [(k, v)]
  {
    if e == [] then [(k, v)]
    else if e[0].0 == k then [(k, v)] + e[1..]
    else [e[0]] + Put(e[1..], k, v)
  }

  /** After `obj[k] = v`, `obj[k]` is `v` and every other key reads as before. */
  lemma {:induction false} PutGet(e: Entries, k: string, v: Value, k': string)
    ensures Get(Put(e, k, v), k') == if k' == k then v else Get(e, k')
  {
    if e != [] && e[0].0 != k {
      PutGet(e[1..], k, v, k');
    }
  }

  /** After `obj[k] = v` the keys are the old ones and `k`. */
  lemma {:induction false} PutHasKey(e: Entries, k: string, v: Value, k': string)
    ensures HasKey(Put(e, k, v), k') <==> k' == k || HasKey(e, k')
  {
    var r := Put(e, k, v);
    if e == [] {
      assert r[1..] == [];
    } else if e[0].0 == k {
      assert r[0].0 == k && r[1..] == e[1..];
    } else {
      PutHasKey(e[1..], k, v, k');
      assert r[0] == e[0] && r[1..] == Put(e[1..], k, v);
    }
  }

  /** `obj[k] = v` never duplicates a key. */
  lemma {:induction false} PutDistinct(e: Entries, k: string, v: Value)
    requires DistinctKeys(e)
    ensures DistinctKeys(Put(e, k, v))
  {
    var r := Put(e, k, v);
    if e == [] {
      assert r[1..] == [];
    } else if e[0].0 == k {
      assert r[0].0 == k && r[1..] == e[1..];
    } else {
      PutDistinct(e[1..], k, v);
      PutHasKey(e[1..], k, v, e[0].0);
      assert r[0] == e[0] && r[1..] == Put(e[1..], k, v);
    }
  }

  /** `allFields.find(f => f.id === id)`. */
  function FindField(fields: seq<FormField>, id: string): (r: Option<FormField>)
    ensures r.Some? ==> r.value in fields && r.value.id == id
    ensures r.None? ==> forall f :: f in fields ==> f.id != id
  {
    if fields == [] then None
    else if fields[0].id == id then Some(fields[0])
    else FindField(fields[1..], id)
  }

  /** `find` gives the first field with the id. */
  lemma {:induction false} FindFieldFirst(fields: seq<FormField>, id: string, i: nat)
    requires i < |fields| && fields[i].id == id
    requires forall m :: 0 <= m < i ==> fields[m].id != id
    ensures FindField(fields, id) == Some(fields[i])
  {
    if i > 0 {
      FindFieldFirst(fields[1..], id, i - 1);
    }
  }

  /** One round of the loop that fills `parentValues`: the parent's value,
      or `''` for a falsy one, under the parent's normalised text. */
  function AddParent(pv: Entries, parentId: string, data: FormInput, all: seq<FormField>): Entries {
    match FindField(all, parentId)
    case Some(p) => Put(pv, NormaliseKey(p.labelText), Or(Lookup(data, parentId), Str("")))
    case None => pv
  }

  /** The `parentValues` object built from the parent ids, in order. */
  function ParentValues(ids: seq<string>, data: FormInput, all: seq<FormField>): Entries {
    if ids == [] then []
    else AddParent(ParentValues(ids[..|ids| - 1], data, all), ids[|ids| - 1], data, all)
  }

  /** The loop of `computeDerivedValue` that fills `parentValues`. */
  method BuildParentValues(ids: seq<string>, data: FormInput, all: seq<FormField>) returns (pv: Entries)
    ensures pv == ParentValues(ids, data, all)
  {
    pv := [];
    for i := 0 to |ids|
      invariant pv == ParentValues(ids[..i], data, all)
    {
      assert ids[..i + 1][..i] == ids[..i];
      var parent := FindField(all, ids[i]);
      if parent.Some? {
        pv := Put(pv, NormaliseKey(parent.value.labelText), Or(Lookup(data, ids[i]), Str("")));
      }
    }
    assert ids[..|ids|] == ids;
  }

  /** Of two parents whose labels normalise to the same key, the later one
      wins: after a parent is added, its key holds its value. */
  lemma LaterParentWins(ids: seq<string>, id: string, data: FormInput, all: seq<FormField>)
    requires FindField(all, id).Some?
    ensures Get(ParentValues(ids + [id], data, all), NormaliseKey(FindField(all, id).value.labelText))
         == Or(Lookup(data, id), Str(""))
  {
    assert (ids + [id])[..|ids|] == ids;
    PutGet(ParentValues(ids, data, all), NormaliseKey(FindField(all, id).value.labelText),
           Or(Lookup(data, id), Str("")), NormaliseKey(FindField(all, id).value.labelText));
  }

  /** A parent id that names no field contributes nothing. */
  lemma MissingParentIgnored(ids: seq<string>, id: string, data: FormInput, all: seq<FormField>)
    requires FindField(all, id).None?
    ensures ParentValues(ids + [id], data, all) == ParentValues(ids, data, all)
  {
    assert (ids + [id])[..|ids|] == ids;
  }

  /** Every entry of `parentValues` is truthy or `''`, and no key occurs twice. */
  lemma {:induction false} ParentValuesShape(ids: seq<string>, data: FormInput, all: seq<FormField>)
    ensures forall i :: 0 <= i < |ParentValues(ids, data, all)| ==>
      Truthy(ParentValues(ids, data, all)[i].1) || ParentValues(ids, data, all)[i].1 == Str("")
    ensures DistinctKeys(ParentValues(ids, data, all))
  {
    if ids != [] {
      var prev := ParentValues(ids[..|ids| - 1], data, all);
      ParentValuesShape(ids[..|ids| - 1], data, all);
      var id := ids[|ids| - 1];
      var p := FindField(all, id);
      if p.Some? {
        var k := NormaliseKey(p.value.labelText);
        var v := Or(Lookup(data, id), Str(""));
        PutDistinct(prev, k, v);
        var r := Put(prev, k, v);
        forall i | 0 <= i < |r| ensures Truthy(r[i].1) || r[i].1 == Str("") {
          PutGetAt(prev, k, v, i);
        }
      }
    }
  }

  /** Each entry after `obj[k] = v` is the new entry or an old one. */
  lemma {:induction false} PutGetAt(e: Entries, k: string, v: Value, i: nat)
    requires i < |Put(e, k, v)|
    ensures Put(e, k, v)[i] == (k, v) || (i < |e| && Put(e, k, v)[i] == e[i])
  {
    if e != [] && e[0].0 != k && i > 0 {
      PutGetAt(e[1..], k, v, i - 1);
    }
  }

  /** The parent `id` names a field whose label normalises to `k`. */
  predicate GivesKey(id: string, all: seq<FormField>, k: string) {
    FindField(all, id).Some? && NormaliseKey(FindField(all, id).value.labelText) == k
  }

  /** A key is present exactly when some parent that names a field has a
      label normalising to it. */
  lemma {:induction false} ParentValuesKeys(ids: seq<string>, data: FormInput, all: seq<FormField>, k: string)
    ensures HasKey(ParentValues(ids, data, all), k) <==> exists id :: id in ids && GivesKey(id, all, k)
  {
    hide NormaliseKey;
    if ids != [] {
      var init := ids[..|ids| - 1];
      var id := ids[|ids| - 1];
      assert ids == init + [id];
      var prev := ParentValues(init, data, all);
      ParentValuesKeys(init, data, all, k);
      assert ParentValues(ids, data, all) == AddParent(prev, id, data, all);
      var here := HasKey(AddParent(prev, id, data, all), k);
      var p := FindField(all, id);
      if p.Some? {
        PutHasKey(prev, NormaliseKey(p.value.labelText), Or(Lookup(data, id), Str("")), k);
        assert here <==> GivesKey(id, all, k) || HasKey(prev, k);
      } else {
        assert here == HasKey(prev, k);
        assert !GivesKey(id, all, k);
      }
      if exists x :: x in ids && GivesKey(x, all, k) {
        var x :| x in ids && GivesKey(x, all, k);
        if x != id { assert x in init; }
      }
      if exists x :: x in init && GivesKey(x, all, k) {
        var x :| x in init && GivesKey(x, all, k);
        assert x in ids;
      }
    } else {
      assert !exists x :: x in ids && GivesKey(x, all, k);
    }
  }

  /** `Object.values(parentValues)`. */
  function Values(e: Entries): (vs: seq<Value>)
    ensures |vs| == |e| && forall i :: 0 <= i < |e| ==> vs[i] == e[i].1
  {
    if e == [] then [] else [e[0].1] + Values(e[1..])
  }

  // ---------------------------------------------------------------------
  // age_from_dob

  /** A calendar date as `getFullYear`, `getMonth` and `getDate` give it. */
  datatype CalendarDate = CalendarDate(year: int, month: int, day: int)

  /** The clock and JavaScript's date parser, which the model takes as given:
      the date the formula is evaluated on, and the date `new Date(v)`
      reads from a value (`None` for an invalid date). */
  datatype DateEnv = DateEnv(today: CalendarDate, parse: Value -> Option<CalendarDate>)

  /** Month and day of `a` come strictly before those of `b`. */
  predicate EarlierInYear(a: CalendarDate, b: CalendarDate) {
    a.month < b.month || (a.month == b.month && a.day < b.day)
  }

  /** Calendar order of two dates. */
  predicate NotAfter(a: CalendarDate, b: CalendarDate) {
    a.year < b.year || (a.year == b.year && !EarlierInYear(b, a))
  }

  /** The year difference, one less if this year's birthday is still ahead. */
  function AgeOn(today: CalendarDate, birth: CalendarDate): int {
    var age := today.year - birth.year;
    var monthDiff := today.month - birth.month;
    if monthDiff < 0 || (monthDiff == 0 && today.day < birth.day) then age - 1 else age
  }

  /** AgeOn counts whole years: the birthday `n` years on has been reached
      for `n` = the age, and not for `n` = the age + 1. */
  lemma AgeIsWholeYears(today: CalendarDate, birth: CalendarDate)
    ensures NotAfter(CalendarDate(birth.year + AgeOn(today, birth), birth.month, birth.day), today)
    ensures !NotAfter(CalendarDate(birth.year + AgeOn(today, birth) + 1, birth.month, birth.day), today)
  {
  }

  /** `age_from_dob`: the `date_of_birth` value, or else the `dob` value;
      0 when neither is truthy; NaN when the date does not parse. */
  function AgeFromDob(pv: Entries, env: DateEnv): (r: Value)
    ensures !Truthy(Or(Get(pv, "date_of_birth"), Get(pv, "dob"))) ==> r == Num(0.0)
  {
    var dob := Or(Get(pv, "date_of_birth"), Get(pv, "dob"));
    if !Truthy(dob) then Num(0.0)
    else match env.parse(dob)
      case None => NotANumber
      case Some(b) => Num(AgeOn(env.today, b) as real)
  }

  // ---------------------------------------------------------------------
  // full_name, total, average

  /** `${first_name || ''} ${last_name || ''}`.trim(). */
  function FullName(pv: Entries): string {
    JsText.Trim(ToJsString(Or(Get(pv, "first_name"), Str(""))) + " " + ToJsString(Or(Get(pv, "last_name"), Str(""))))
  }

  /** The sum of `parseFloat(v) || 0` over the values, from the left. */
  function Total(vs: seq<Value>): real {
    if vs == [] then 0.0 else Total(vs[..|vs| - 1]) + NumericOrZero(vs[|vs| - 1])
  }

  /** The values `parseFloat` reads a number from. */
  function Parseable(vs: seq<Value>): (ps: seq<Value>)
    ensures |ps| <= |vs|
    ensures forall v :: v in ps ==> v in vs && ParseFloatValue(v).Some?
    ensures forall v :: v in vs && ParseFloatValue(v).Some? ==> v in ps
  {
    if vs == [] then []
    else Parseable(vs[..|vs| - 1]) + (if ParseFloatValue(vs[|vs| - 1]).Some? then [vs[|vs| - 1]] else [])
  }

  /** The filter on one more value: it is kept, at the end, exactly when it
      parses. */
  lemma ParseableSnoc(vs: seq<Value>, v: Value)
    ensures Parseable(vs + [v]) == Parseable(vs) + (if ParseFloatValue(v).Some? then [v] else [])
  {
    assert (vs + [v])[..|vs|] == vs;
  }

  /** The filter keeps every parseable value as often as it occurs and drops
      the others, so its length is the number of parseable entries. */
  lemma {:induction false} ParseableCount(vs: seq<Value>, v: Value)
    ensures multiset(Parseable(vs))[v] == if ParseFloatValue(v).Some? then multiset(vs)[v] else 0
  {
    if vs != [] {
      var init := vs[..|vs| - 1];
      var w := vs[|vs| - 1];
      assert vs == init + [w];
      ParseableCount(init, v);
      ParseableSnoc(init, w);
    }
  }

  /** The sum of `parseFloat(v)` over values that all parse. */
  function ParsedSum(ps: seq<Value>): real {
    if ps == [] then 0.0 else ParsedSum(ps[..|ps| - 1]) + ParseFloatValue(ps[|ps| - 1]).GetOr(0.0)
  }

  /** Summing only the parseable values gives the `total` of all values,
      since a value without a number adds 0 to the total. */
  lemma {:induction false} ParsedSumIsTotal(vs: seq<Value>)
    ensures ParsedSum(Parseable(vs)) == Total(vs)
  {
    if vs != [] {
      var init := vs[..|vs| - 1];
      var v := vs[|vs| - 1];
      ParsedSumIsTotal(init);
      if ParseFloatValue(v).Some? {
        assert (Parseable(init) + [v])[..|Parseable(init)|] == Parseable(init);
      } else {
        assert Parseable(init) + [] == Parseable(init);
      }
    }
  }

  /** A value that does not parse adds nothing to the total. */
  lemma TotalIgnoresNonNumeric(vs: seq<Value>, v: Value)
    requires ParseFloatValue(v).None?
    ensures Total(vs + [v]) == Total(vs)
  {
    assert (vs + [v])[..|vs|] == vs;
  }

  /** `average`: 0 when no value parses, else the mean of the parsed
      numbers printed with two decimals. */
  function Average(vs: seq<Value>): (r: Value)
    ensures |Parseable(vs)| == 0 ==> r == Num(0.0)
    ensures |Parseable(vs)| > 0 ==> r == Str(JsText.ToFixed2(Total(vs) / |Parseable(vs)| as real))
  {
    var ps := Parseable(vs);
    if |ps| == 0 then Num(0.0)
    else
      ParsedSumIsTotal(vs);
      Str(JsText.ToFixed2(ParsedSum(ps) / |ps| as real))
  }

  // ---------------------------------------------------------------------
  // The generic branch: whole-word substitution

  /** `\b` at position `q`: a word character on exactly one side. */
  predicate Boundary(s: string, q: nat)
    requires q <= |s|
  {
    (q > 0 && JsText.IsWordChar(s[q - 1])) != (q < |s| && JsText.IsWordChar(s[q]))
  }

  /** `\bkey\b` matches at `q`. */
  predicate MatchAt(s: string, key: string, q: nat) {
    q + |key| <= |s| && s[q..q + |key|] == key && Boundary(s, q) && Boundary(s, q + |key|)
  }

  /** Where the next match starts at or after `from`. */
  function NextMatch(s: string, key: string, from: nat): (r: Option<nat>)
    requires from <= |s|
    ensures r.Some? ==> from <= r.value <= |s| && MatchAt(s, key, r.value)
    ensures r.Some? ==> forall q :: from <= q < r.value ==> !MatchAt(s, key, q)
    ensures r.None? ==> forall q :: from <= q <= |s| ==> !MatchAt(s, key, q)
    decreases |s| - from
  {
    if MatchAt(s, key, from) then Some(from)
    else if from == |s| then None
    else NextMatch(s, key, from + 1)
  }

  /** The replacement text for one match, as `String.prototype.replace`
      expands it for a pattern without capture groups: `$$` is `$`, `$&` the
      match, `` $` `` the text before it, `$'` the text after it; any other
      `$` is literal. */
  function Expand(t: string, matched: string, before: string, after: string): string {
    if t == [] then []
    else if t[0] == '$' && |t| >= 2 && t[1] in "$&`'" then
      (if t[1] == '$' then "$" else if t[1] == '&' then matched else if t[1] == '`' then before else after)
      + Expand(t[2..], matched, before, after)
    else [t[0]] + Expand(t[1..], matched, before, after)
  }

  /** A replacement without `$` is inserted as it is. */
  lemma {:induction false} ExpandPlain(t: string, matched: string, before: string, after: string)
    requires '$' !in t
    ensures Expand(t, matched, before, after) == t
  {
    if t != [] {
      assert t[0] != '$';
      assert '$' !in t[1..] by {
        forall i | 0 <= i < |t[1..]| ensures t[1..][i] != '$' {
          assert t[1..][i] == t[i + 1];
        }
      }
      ExpandPlain(t[1..], matched, before, after);
      assert t == [t[0]] + t[1..];
    }
  }

  /** The rest of `s.replace(/\bkey\b/g, repl)`: text from `copyFrom` on is
      still to be copied, and the search resumes at `searchFrom` (one past an
      empty match). */
  function ReplaceFrom(s: string, key: string, repl: string, copyFrom: nat, searchFrom: nat): string
    requires copyFrom <= searchFrom <= |s|
    decreases |s| - searchFrom
  {
    match NextMatch(s, key, searchFrom)
    case None => s[copyFrom..]
    case Some(q) =>
      var e := q + |key|;
      s[copyFrom..q] + Expand(repl, key, s[..q], s[e..])
      + (if |key| > 0 then ReplaceFrom(s, key, repl, e, e)
         else if q < |s| then ReplaceFrom(s, key, repl, q, q + 1)
         else [])
  }

  /** `s.replace(new RegExp('\\b' + key + '\\b', 'g'), repl)`. */
  function ReplaceWord(s: string, key: string, repl: string): string {
    ReplaceFrom(s, key, repl, 0, 0)
  }

  /** Text without a whole-word occurrence of the key is left alone. */
  lemma NoMatchUnchanged(s: string, key: string, repl: string)
    requires forall q :: 0 <= q <= |s| ==> !MatchAt(s, key, q)
    ensures ReplaceWord(s, key, repl) == s
  {
    assert NextMatch(s, key, 0).None?;
    assert s[0..] == s;
  }

  /** A single whole-word occurrence of a non-empty key is replaced by a
      replacement without `$`, and the text around it is kept. */
  lemma SingleMatchReplaced(a: string, key: string, b: string, repl: string)
    requires key != [] && '$' !in repl
    requires MatchAt(a + key + b, key, |a|)
    requires forall q :: 0 <= q <= |a + key + b| && q != |a| ==> !MatchAt(a + key + b, key, q)
    ensures ReplaceWord(a + key + b, key, repl) == a + repl + b
  {
    var s := a + key + b;
    var e := |a| + |key|;
    assert NextMatch(s, key, 0) == Some(|a|);
    assert NextMatch(s, key, e).None?;
    assert ReplaceFrom(s, key, repl, e, e) == s[e..];
    ExpandPlain(repl, key, s[..|a|], s[e..]);
    assert ReplaceFrom(s, key, repl, 0, 0) == s[0..|a|] + repl + s[e..];
    assert s[0..|a|] == a;
    assert s[e..] == b;
  }

  /** Keys that make `new RegExp('\\b' + key + '\\b')` a plain word match. */
  predicate WordKey(key: string) {
    forall i :: 0 <= i < |key| ==> JsText.IsWordChar(key[i])
  }

  predicate AllWordKeys(pv: Entries) {
    forall i :: 0 <= i < |pv| ==> WordKey(pv[i].0)
  }

  /** `String(value || 0)`. */
  function SubstitutedText(v: Value): string {
    ToJsString(Or(v, Num(0.0)))
  }

  /** The formula after the `forEach` over the entries, in order. */
  function Substituted(formula: string, pv: Entries): string {
    if pv == [] then formula
    else ReplaceWord(Substituted(formula, pv[..|pv| - 1]), pv[|pv| - 1].0, SubstitutedText(pv[|pv| - 1].1))
  }

  /** A falsy parent value is substituted as `0`. */
  lemma FalsyIsZero(v: Value)
    requires !Truthy(v)
    ensures SubstitutedText(v) == "0"
  {
    assert (0.0).Floor == 0;
  }

  // The characters of the class [0-9+\-*/().\s].
  predicate IsMathChar(c: char) {
    JsText.IsDigit(c) || c in "+-*/()." || JsText.IsSpace(c)
  }

  // The test /^[0-9+\-*/().\s]+$/ on the substituted formula.
  predicate MathText(s: string) {
    |s| > 0 && forall i :: 0 <= i < |s| ==> IsMathChar(s[i])
  }

  /** The generic branch: the value of the substituted arithmetic, or `''`
      when a key is not a plain word or a character outside the arithmetic
      set remains. */
  function GenericValue(formula: string, pv: Entries): (r: Value)
    ensures r.Num? <==> AllWordKeys(pv) && MathText(Substituted(formula, pv))
    ensures r.Num? ==> r.n == BasicMath.BasicMathValue(Substituted(formula, pv))
    ensures !r.Num? ==> r == Str("")
  {
    if !AllWordKeys(pv) then Str("")
    else
      var expression := Substituted(formula, pv);
      if MathText(expression) then Num(BasicMath.BasicMathValue(expression)) else Str("")
  }

  /** The substitution loop of the generic branch. `ok` is false when a key
      would not form a plain word pattern. */
  method SubstituteKeys(formula: string, pv: Entries) returns (ok: bool, expression: string)
    ensures ok == AllWordKeys(pv)
    ensures ok ==> expression == Substituted(formula, pv)
  {
    expression := formula;
    for i := 0 to |pv|
      invariant AllWordKeys(pv[..i])
      invariant expression == Substituted(formula, pv[..i])
    {
      assert pv[..i + 1][..i] == pv[..i];
      if !WordKey(pv[i].0) {
        assert !AllWordKeys(pv);
        return false, expression;
      }
      expression := ReplaceWord(expression, pv[i].0, SubstitutedText(pv[i].1));
    }
    assert pv[..|pv|] == pv;
    ok := true;
  }

  // ---------------------------------------------------------------------
  // evaluateFormula and computeDerivedValue

  /** `evaluateFormula`: the lower-cased formula selects a named formula;
      anything else is arithmetic. */
  function FormulaValue(formula: string, pv: Entries, env: DateEnv): Value {
    var name := JsText.ToLower(formula);
    if name == "age_from_dob" then AgeFromDob(pv, env)
    else if name == "full_name" then Str(FullName(pv))
    else if name == "total" || name == "sum" then Num(Total(Values(pv)))
    else if name == "average" then Average(Values(pv))
    else GenericValue(formula, pv)
  }

  method EvaluateFormula(formula: string, pv: Entries, env: DateEnv) returns (r: Value)
    ensures r == FormulaValue(formula, pv, env)
  {
    var name := JsText.ToLower(formula);
    if name == "age_from_dob" {
      r := AgeFromDob(pv, env);
    } else if name == "full_name" {
      r := Str(FullName(pv));
    } else if name == "total" || name == "sum" {
      r := Num(Total(Values(pv)));
    } else if name == "average" {
      r := Average(Values(pv));
    } else {
      var ok, expression := SubstituteKeys(formula, pv);
      r := Str("");
      if ok && MathText(expression) {
        var n := BasicMath.EvaluateBasicMath(expression);
        r := Num(n);
      }
    }
  }

  /** Whether `computeDerivedValue` evaluates the formula at all: the field
      is derived, has a parent list (an empty list counts) and a non-empty
      formula. */
  predicate Computes(field: FormField) {
    field.isDerived && field.parentFields.Some? && field.derivedFormula.Some? && field.derivedFormula.value != ""
  }

  /** `computeDerivedValue(field, formData, allFields)`. */
  function DerivedValue(field: FormField, data: FormInput, all: seq<FormField>, env: DateEnv): (r: Value)
    ensures !Computes(field) ==> r == Str("")
  {
    if !Computes(field) then Str("")
    else FormulaValue(field.derivedFormula.value, ParentValues(field.parentFields.value, data, all), env)
  }

  method ComputeDerivedValue(field: FormField, data: FormInput, all: seq<FormField>, env: DateEnv) returns (r: Value)
    ensures r == DerivedValue(field, data, all, env)
  {
    if !field.isDerived || field.parentFields.None? || field.derivedFormula.None? || field.derivedFormula.value == "" {
      return Str("");
    }
    var pv := BuildParentValues(field.parentFields.value, data, all);
    r := EvaluateFormula(field.derivedFormula.value, pv, env);
  }

  // ---------------------------------------------------------------------
  // updateDerivedFields

  /** One round of the `forEach` of `updateDerivedFields`; the value is
      computed from the original `data`, not from the copy being updated. */
  function UpdateStep(u: FormInput, f: FormField, data: FormInput, all: seq<FormField>, env: DateEnv): FormInput {
    if f.isDerived then u[f.id := DerivedValue(f, data, all, env)] else u
  }

  /** The copy after the rounds for `fs`, in order. */
  function ApplyUpdates(u: FormInput, fs: seq<FormField>, data: FormInput, all: seq<FormField>, env: DateEnv): FormInput {
    if fs == [] then u
    else UpdateStep(ApplyUpdates(u, fs[..|fs| - 1], data, all, env), fs[|fs| - 1], data, all, env)
  }

  /** The result of `updateDerivedFields(data, fields)`. */
  function UpdatedData(data: FormInput, fields: seq<FormField>, env: DateEnv): FormInput {
    ApplyUpdates(data, fields, data, fields, env)
  }

  method UpdateDerivedFields(data: FormInput, fields: seq<FormField>, env: DateEnv) returns (updated: FormInput)
    ensures updated == UpdatedData(data, fields, env)
  {
    hide DerivedValue;
    updated := data;
    for i := 0 to |fields|
      invariant updated == ApplyUpdates(data, fields[..i], data, fields, env)
    {
      assert fields[..i + 1][..i] == fields[..i];
      var field := fields[i];
      if field.isDerived {
        var v := ComputeDerivedValue(field, data, fields, env);
        updated := updated[field.id := v];
      }
    }
    assert fields[..|fields|] == fields;
  }

  /** The last derived field of `fs` with id `k`. */
  function LastDerived(fs: seq<FormField>, k: string): (r: Option<FormField>)
    ensures r.Some? ==> r.value in fs && r.value.isDerived && r.value.id == k
    ensures r.None? ==> forall f :: f in fs ==> !(f.isDerived && f.id == k)
  {
    if fs == [] then None
    else if fs[|fs| - 1].isDerived && fs[|fs| - 1].id == k then Some(fs[|fs| - 1])
    else
      var r := LastDerived(fs[..|fs| - 1], k);
      assert forall f :: f in fs ==> f in fs[..|fs| - 1] || f == fs[|fs| - 1];
      r
  }

  /** The derived field with id `k` that comes after every other one is
      the one found. */
  lemma {:induction false} LastDerivedLast(fs: seq<FormField>, k: string, i: nat)
    requires i < |fs| && fs[i].isDerived && fs[i].id == k
    requires forall m :: i < m < |fs| ==> !(fs[m].isDerived && fs[m].id == k)
    ensures LastDerived(fs, k) == Some(fs[i])
  {
    if i < |fs| - 1 {
      LastDerivedLast(fs[..|fs| - 1], k, i);
    }
  }

  /** What the pass leaves under each key: the value of the last derived
      field with that id, computed from the original data; keys that are no
      derived field's id keep their presence and value. */
  lemma {:induction false} UpdatedAt(u: FormInput, fs: seq<FormField>, data: FormInput, all: seq<FormField>, env: DateEnv, k: string)
    ensures LastDerived(fs, k).Some? ==>
      k in ApplyUpdates(u, fs, data, all, env) && ApplyUpdates(u, fs, data, all, env)[k] == DerivedValue(LastDerived(fs, k).value, data, all, env)
    ensures LastDerived(fs, k).None? ==>
      (k in ApplyUpdates(u, fs, data, all, env) <==> k in u)
      && (k in u ==> ApplyUpdates(u, fs, data, all, env)[k] == u[k])
  {
    hide DerivedValue;
    if fs != [] {
      UpdatedAt(u, fs[..|fs| - 1], data, all, env, k);
    }
  }

  /** Running the rounds for `a` and then those for `b`. */
  lemma {:induction false} ApplyUpdatesConcat(u: FormInput, a: seq<FormField>, b: seq<FormField>, data: FormInput, all: seq<FormField>, env: DateEnv)
    ensures ApplyUpdates(u, a + b, data, all, env) == ApplyUpdates(ApplyUpdates(u, a, data, all, env), b, data, all, env)
  {
    hide DerivedValue;
    if b == [] {
      assert a + b == a;
    } else {
      ApplyUpdatesConcat(u, a, b[..|b| - 1], data, all, env);
      ConcatInit(a, b);
    }
  }

  /** Two adjacent rounds commute unless both write the same id. */
  lemma StepsCommute(w: FormInput, f: FormField, g: FormField, data: FormInput, all: seq<FormField>, env: DateEnv)
    requires !(f.isDerived && g.isDerived && f.id == g.id)
    ensures UpdateStep(UpdateStep(w, f, data, all, env), g, data, all, env)
         == UpdateStep(UpdateStep(w, g, data, all, env), f, data, all, env)
  {
    hide DerivedValue;
    if f.isDerived && g.isDerived {
      var x := DerivedValue(f, data, all, env);
      var y := DerivedValue(g, data, all, env);
      assert w[f.id := x][g.id := y] == w[g.id := y][f.id := x];
    }
  }

  /** With the field list used for parent lookup fixed, swapping two adjacent
      fields that do not both write the same id does not change the result:
      the order of the derived fields does not matter. */
  lemma SwapIndependent(u: FormInput, xs: seq<FormField>, f: FormField, g: FormField, ys: seq<FormField>,
                        data: FormInput, all: seq<FormField>, env: DateEnv)
    requires !(f.isDerived && g.isDerived && f.id == g.id)
    ensures ApplyUpdates(u, xs + [f, g] + ys, data, all, env) == ApplyUpdates(u, xs + [g, f] + ys, data, all, env)
  {
    hide DerivedValue;
    ApplyUpdatesConcat(u, xs + [f, g], ys, data, all, env);
    ApplyUpdatesConcat(u, xs + [g, f], ys, data, all, env);
    ApplyUpdatesConcat(u, xs, [f, g], data, all, env);
    ApplyUpdatesConcat(u, xs, [g, f], data, all, env);
    var w := ApplyUpdates(u, xs, data, all, env);
    assert [f, g][..1] == [f] && [g, f][..1] == [g] && [f][..0] == [] && [g][..0] == [];
    assert ApplyUpdates(w, [f], data, all, env) == UpdateStep(w, f, data, all, env);
    assert ApplyUpdates(w, [g], data, all, env) == UpdateStep(w, g, data, all, env);
    assert ApplyUpdates(w, [f, g], data, all, env) == UpdateStep(UpdateStep(w, f, data, all, env), g, data, all, env);
    assert ApplyUpdates(w, [g, f], data, all, env) == UpdateStep(UpdateStep(w, g, data, all, env), f, data, all, env);
    StepsCommute(w, f, g, data, all, env);
  }

  /** `allFields.find` gives the same answer on a list with two adjacent
      fields of different ids swapped. */
  lemma {:induction false} FindFieldSwap(xs: seq<FormField>, f: FormField, g: FormField, ys: seq<FormField>, id: string)
    requires f.id != g.id
    ensures FindField(xs + [f, g] + ys, id) == FindField(xs + [g, f] + ys, id)
  {
    if xs != [] {
      FindFieldSwap(xs[1..], f, g, ys, id);
      assert (xs + [f, g] + ys)[1..] == xs[1..] + [f, g] + ys;
      assert (xs + [g, f] + ys)[1..] == xs[1..] + [g, f] + ys;
    } else {
      assert (xs + [f, g] + ys)[1..] == [g] + ys && (xs + [g, f] + ys)[1..] == [f] + ys;
      assert ([g] + ys)[1..] == ys && ([f] + ys)[1..] == ys;
    }
  }

  /** Parent values depend on the field list only through `find`. */
  lemma {:induction false} ParentValuesSameFinds(ids: seq<string>, data: FormInput, all1: seq<FormField>, all2: seq<FormField>)
    requires forall id :: FindField(all1, id) == FindField(all2, id)
    ensures ParentValues(ids, data, all1) == ParentValues(ids, data, all2)
  {
    if ids != [] {
      ParentValuesSameFinds(ids[..|ids| - 1], data, all1, all2);
      assert FindField(all1, ids[|ids| - 1]) == FindField(all2, ids[|ids| - 1]);
    }
  }

  lemma {:induction false} ApplyUpdatesSameFinds(u: FormInput, fs: seq<FormField>, data: FormInput,
                                                 all1: seq<FormField>, all2: seq<FormField>, env: DateEnv)
    requires forall id :: FindField(all1, id) == FindField(all2, id)
    ensures ApplyUpdates(u, fs, data, all1, env) == ApplyUpdates(u, fs, data, all2, env)
  {
    hide FormulaValue;
    if fs != [] {
      ApplyUpdatesSameFinds(u, fs[..|fs| - 1], data, all1, all2, env);
      var f := fs[|fs| - 1];
      if Computes(f) {
        ParentValuesSameFinds(f.parentFields.value, data, all1, all2);
      }
    }
  }

  /** `updateDerivedFields` does not depend on the order of two adjacent
      fields with different ids. */
  lemma UpdateOrderIndependent(data: FormInput, xs: seq<FormField>, f: FormField, g: FormField, ys: seq<FormField>, env: DateEnv)
    requires f.id != g.id
    ensures UpdatedData(data, xs + [f, g] + ys, env) == UpdatedData(data, xs + [g, f] + ys, env)
  {
    hide DerivedValue;
    forall id ensures FindField(xs + [f, g] + ys, id) == FindField(xs + [g, f] + ys, id) {
      FindFieldSwap(xs, f, g, ys, id);
    }
    SwapIndependent(data, xs, f, g, ys, data, xs + [f, g] + ys, env);
    ApplyUpdatesSameFinds(data, xs + [g, f] + ys, data, xs + [f, g] + ys, xs + [g, f] + ys, env);
  }

  // ---------------------------------------------------------------------
  // getDerivedFieldOptions

  /** `{ id, text }` of a possible parent. */
  datatype FieldOption = FieldOption(id: string, labelText: string)

  /** `getDerivedFieldOptions`: the non-derived fields, in order, as id and text. */
  function DerivedFieldOptions(fields: seq<FormField>): (r: seq<FieldOption>)
    ensures |r| <= |fields|
    ensures forall o :: o in r <==> exists f :: f in fields && !f.isDerived && o == FieldOption(f.id, f.labelText)
  {
    if fields == [] then []
    else
      var rest := DerivedFieldOptions(fields[1..]);
      assert forall f :: f in fields <==> f == fields[0] || f in fields[1..];
      (if fields[0].isDerived then [] else [FieldOption(fields[0].id, fields[0].labelText)]) + rest
  }

  /** The options of two lists of fields put together are the two lists of
      options put together: the order of the fields is kept. */
  lemma {:induction false} DerivedFieldOptionsConcat(a: seq<FormField>, b: seq<FormField>)
    ensures DerivedFieldOptions(a + b) == DerivedFieldOptions(a) + DerivedFieldOptions(b)
  {
    if a != [] {
      DerivedFieldOptionsConcat(a[1..], b);
      assert (a + b)[0] == a[0] && (a + b)[1..] == a[1..] + b;
    } else {
      assert a + b == b;
    }
  }

  // ---------------------------------------------------------------------
  // Worked cases

  /** Two words of a label: the key is both lower-cased, with the run of
      white space between them one `_`. */
  lemma NormaliseKeySpaceRun(a: string, w: string, b: string)
    requires BasicMath.NoSpace(a) && w != [] && JsText.AllSpace(w)
    requires b == [] || !JsText.IsSpace(b[0])
    ensures NormaliseKey(a + w + b) == JsText.ToLower(a) + "_" + NormaliseKey(b)
  {
    hide JsText.IsSpace;
    var t := w + b;
    ConcatAssoc(a, w, b);
    NormaliseKeyAfterWord(a, t);
    TrimStartAfterSpace(w, b);
    ConcatTail(w, b);
    assert NormaliseKey(t) == "_" + NormaliseKey(b);
    ConcatAssoc(JsText.ToLower(a), "_", NormaliseKey(b));
  }

  lemma {:induction false} TrimStartAfterSpace(w: string, b: string)
    requires JsText.AllSpace(w) && (b == [] || !JsText.IsSpace(b[0]))
    ensures JsText.TrimStart(w + b) == b
  {
    hide JsText.IsSpace;
    if w != [] {
      ConcatTail(w, b);
      assert JsText.AllSpace(w[1..]) by {
        forall i | 0 <= i < |w[1..]| ensures JsText.IsSpace(w[1..][i]) {
          assert w[1..][i] == w[i + 1];
        }
      }
      TrimStartAfterSpace(w[1..], b);
    } else {
      assert w + b == b;
    }
  }

  /** A word without white space keeps its place, lower-cased. */
  lemma {:induction false} NormaliseKeyAfterWord(a: string, b: string)
    requires BasicMath.NoSpace(a)
    ensures NormaliseKey(a + b) == JsText.ToLower(a) + NormaliseKey(b)
  {
    hide JsText.IsSpace;
    if a != [] {
      NoSpaceTail(a);
      NormaliseKeyAfterWord(a[1..], b);
      ConcatTail(a, b);
      var c := [JsText.LowerChar(a[0])];
      assert NormaliseKey(a + b) == c + NormaliseKey(a[1..] + b);
      assert JsText.ToLower(a) == c + JsText.ToLower(a[1..]);
      ConcatAssoc(c, JsText.ToLower(a[1..]), NormaliseKey(b));
    } else {
      assert a + b == b;
    }
  }

  /** One day before the birthday the age is still one year short. */
  lemma AgeExample()
    ensures AgeOn(CalendarDate(2024, 6, 15), CalendarDate(2000, 6, 16)) == 23
    ensures AgeOn(CalendarDate(2024, 6, 16), CalendarDate(2000, 6, 16)) == 24
  {
  }

  /** `full_name` joins the two names with one space; with only a first
      name it is that name alone. */
  lemma FullNameJoins(pv: Entries, first: string, last: string)
    requires Get(pv, "first_name") == Str(first) && Get(pv, "last_name") == Str(last)
    requires first != [] && !JsText.IsSpace(first[0]) && !JsText.IsSpace(first[|first| - 1])
    requires last != [] && !JsText.IsSpace(last[0]) && !JsText.IsSpace(last[|last| - 1])
    ensures FullName(pv) == first + " " + last
  {
    var s := first + " " + last;
    assert s[0] == first[0] && s[|s| - 1] == last[|last| - 1];
    JsText.TrimOfTrimmed(s);
  }

  lemma FullNameFirstOnly(pv: Entries, first: string)
    requires Get(pv, "first_name") == Str(first) && Get(pv, "last_name") == Null
    requires first != [] && !JsText.IsSpace(first[0]) && !JsText.IsSpace(first[|first| - 1])
    ensures FullName(pv) == first
  {
    var s := first + " ";
    assert first + " " + "" == s;
    assert JsText.TrimStart(s) == s;
    assert JsText.TrimEnd(s) == JsText.TrimEnd(s[..|s| - 1]);
    assert s[..|s| - 1] == first;
    assert JsText.TrimEnd(first) == first;
  }

  /** Adding one more value to `total`. */
  lemma TotalSnoc(vs: seq<Value>, v: Value)
    ensures Total(vs + [v]) == Total(vs) + NumericOrZero(v)
  {
    assert (vs + [v])[..|vs|] == vs;
  }

  /** `parseFloat` finds no number in a word. */
  lemma ParseFloatOfWord()
    ensures JsText.ParseFloat("x") == None && NumericOrZero(Str("x")) == 0.0
  {
    assert JsText.TrimStart("x") == "x";
    assert JsText.DigitRun("x") == 0;
    assert JsText.ScanUnsigned("x") == None;
  }

  lemma NumericOrZeroOfDigit()
    ensures NumericOrZero(Str("4")) == 4.0
  {
    JsText.ScanDigits("4");
    assert JsText.DigitsValue("4") == 4;
  }

  /** `total` adds what parses and treats the rest as 0: 3 + "4" + "x" is 7. */
  lemma TotalExample()
    ensures Total([Num(3.0), Str("4"), Str("x")]) == 7.0
  {
    hide NumericOrZero, ParseFloatValue, JsText.ParseFloat;
    NumericOrZeroOfDigit();
    ParseFloatOfWord();
    var a := [Num(3.0)];
    var b := a + [Str("4")];
    assert [] + [Num(3.0)] == a;
    TotalSnoc([], Num(3.0));
    TotalSnoc(a, Str("4"));
    TotalSnoc(b, Str("x"));
    assert b + [Str("x")] == [Num(3.0), Str("4"), Str("x")];
  }

  lemma Fixed2Example()
    ensures JsText.ToFixed2(1.5) == "1.50"
  {
    assert (1.5 * 100.0 + 0.5).Floor == 150;
    assert JsText.NatToString(1) == "1";
    assert JsText.DigitChar(5) == '5' && JsText.DigitChar(0) == '0';
  }

  lemma TotalOfOneAndTwo()
    ensures Parseable([Num(1.0), Num(2.0)]) == [Num(1.0), Num(2.0)]
    ensures Total([Num(1.0), Num(2.0)]) == 3.0
  {
    hide NumericOrZero, JsText.ParseFloat;
    var a := [Num(1.0)];
    var vs := a + [Num(2.0)];
    assert [] + [Num(1.0)] == a;
    assert Parseable(a) == a;
    TotalSnoc([], Num(1.0));
    TotalSnoc(a, Num(2.0));
    assert vs == [Num(1.0), Num(2.0)];
  }

  /** `average` of 1 and 2 is printed as 1.50. */
  lemma AverageExample()
    ensures Average([Num(1.0), Num(2.0)]) == Str("1.50")
  {
    hide Average, Parseable, Total, JsText.ToFixed2;
    TotalOfOneAndTwo();
    Fixed2Example();
  }

  /** With nothing to average the result is 0. */
  lemma AverageOfNothing()
    ensures Average([]) == Num(0.0)
  {
  }

  /** The formula is lower-cased before it is matched: `TOTAL` is the sum. */
  lemma FormulaNameIgnoresCase(env: DateEnv)
    ensures FormulaValue("TOTAL", [], env) == Num(0.0)
  {
    assert JsText.ToLower("TOTAL") == "total";
  }

  /** The examples the editor offers are the named formulas, in order. */
  lemma FormulaExamplesAreNamed(pv: Entries, env: DateEnv)
    ensures |Constants.FormulaExamples()| == 4
    ensures FormulaValue(Constants.FormulaExamples()[0], pv, env) == AgeFromDob(pv, env)
    ensures FormulaValue(Constants.FormulaExamples()[1], pv, env) == Str(FullName(pv))
    ensures FormulaValue(Constants.FormulaExamples()[2], pv, env) == Num(Total(Values(pv)))
    ensures FormulaValue(Constants.FormulaExamples()[3], pv, env) == Average(Values(pv))
  {
    hide AgeFromDob, FullName, Total, Average, GenericValue, JsText.ToLower;
    var ex := Constants.FormulaExamples();
    assert ex == ["age_from_dob", "full_name", "total", "average"];
    ToLowerKeepsLower("age_from_dob");
    ToLowerKeepsLower("full_name");
    ToLowerKeepsLower("total");
    ToLowerKeepsLower("average");
  }

  /** The formula is not trimmed: ` total` falls through to arithmetic and,
      having letters left, is `''`. */
  lemma FormulaNameIsNotTrimmed(env: DateEnv)
    ensures FormulaValue(" total", [], env) == Str("")
  {
    hide JsText.ToLower, JsText.IsSpace;
    var f := " total";
    ToLowerKeepsLower(f);
    assert f == [' '] + "total";
    LetterNotSpace(f[1]);
    assert !IsMathChar(f[1]);
  }

  lemma LetterNotSpace(c: char)
    requires 'a' <= c <= 'z'
    ensures !JsText.IsSpace(c)
  {
  }

  /** Arithmetic on white space alone is 0. */
  lemma BlankArithmeticIsZero()
    ensures BasicMath.BasicMathValue(" ") == 0.0
  {
    BasicMath.SpaceIsIgnored("", ' ', "");
    assert "" + [' '] + "" == " " && "" + "" == "";
    BasicMath.EmptyNumberIsZero();
  }

  /** A formula of white space alone passes the character test and
      evaluates to 0. */
  lemma BlankFormulaIsZero(env: DateEnv)
    ensures FormulaValue(" ", [], env) == Num(0.0)
  {
    hide JsText.ToLower;
    ToLowerKeepsLower(" ");
    assert Substituted(" ", []) == " ";
    assert MathText(" ");
    BlankArithmeticIsZero();
  }

  /** Whole words only: `price` is replaced in `price*qty`. */
  lemma ReplaceWordExample()
    ensures ReplaceWord("price*qty", "price", "3") == "3*qty"
  {
    hide ReplaceWord, ReplaceFrom, NextMatch, Expand;
    var b := "*qty";
    var s := "price" + b;
    assert s == "" + "price" + b;
    forall q | 0 <= q <= |s| && q != 0 ensures !MatchAt(s, "price", q) {
      if q + 5 <= |s| {
        assert s[q] != 'p';
      }
    }
    assert Boundary(s, 0) && Boundary(s, 5);
    SingleMatchReplaced("", "price", b, "3");
    assert s == "price*qty";
    assert "" + "3" + b == "3*qty";
  }

  /** A parent value below 10^-6 is substituted in exponent form, whose
      `e` fails the arithmetic test, so the formula gives `''`. */
  lemma TinyParentValueBlanksFormula()
    ensures GenericValue("a*2", [("a", Num(0.0000001))]) == Str("")
  {
    hide ReplaceWord, ReplaceFrom, NextMatch, Expand;
    var pv := [("a", Num(0.0000001))];
    JsText.TinyNumberExample();
    assert SubstitutedText(Num(0.0000001)) == "1e-7";
    var b := "*2";
    var s := "a" + b;
    assert s == "" + "a" + b;
    forall q | 0 <= q <= |s| && q != 0 ensures !MatchAt(s, "a", q) {
      if q + 1 <= |s| {
        assert s[q] != 'a';
      }
    }
    assert Boundary(s, 0) && Boundary(s, 1);
    SingleMatchReplaced("", "a", b, "1e-7");
    assert s == "a*2" && "" + "1e-7" + b == "1e-7*2";
    assert pv[..0] == [] && Substituted("a*2", []) == "a*2";
    assert Substituted("a*2", pv) == ReplaceWord("a*2", "a", "1e-7");
    assert !IsMathChar("1e-7*2"[1]);
  }

  /** A longer word containing the key is left alone: `prices` stays. */
  lemma ReplaceWordWholeWordOnly()
    ensures ReplaceWord("prices", "price", "3") == "prices"
  {
    hide ReplaceWord, ReplaceFrom, NextMatch, Expand;
    var s := "prices";
    forall q | 0 <= q <= |s| ensures !MatchAt(s, "price", q) {
      if q == 0 {
        assert !Boundary(s, 5);
      }
    }
    NoMatchUnchanged(s, "price", "3");
  }

  /** An empty parent list is truthy, so the formula is still evaluated. */
  lemma EmptyParentListEvaluates(field: FormField, data: FormInput, all: seq<FormField>, env: DateEnv)
    requires field.isDerived && field.parentFields == Some([]) && field.derivedFormula == Some("total")
    ensures DerivedValue(field, data, all, env) == Num(0.0)
  {
    hide JsText.ToLower;
    ToLowerKeepsLower("total");
  }
}

