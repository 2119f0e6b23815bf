/**
 * The dictionary-based invoice revision: the schema check run on a decoded
 * request, the GLN list, and the Data Matrix text. The request is a decoded
 * JSON value; the check uses Python's `in`, which looks up a key in an
 * object, a substring in a text, an element in a list, and raises
 * `TypeError` on anything else.
 */
module DictInvoiceContent {
  import opened Wrappers
  import Text
  import Datamatrix
  import DictEntities

  datatype Json =
    | Null
    | Bool(b: bool)
    | Number(n: int)
    | Str(s: string)
    | List(items: seq<Json>)
    | Object(fields: map<string, Json>)

  /** A schema entry: an object whose listed keys must be there, or a list of such objects. */
  datatype Shape = Section(subs: seq<string>) | ListOf(subs: seq<string>)

  /** `SCHEMA`, in its declaration order. */
  const Schema: seq<(string, Shape)> := [
    ("author", Section(["name", "street", "ZIP", "city", "phone", "email", "RCC"])),
    ("therapist", Section(["firstName", "lastName", "street", "ZIP", "city", "phone", "RCC"])),
    ("patient", Section(["firstName", "lastName", "street", "ZIP", "city", "canton", "birthdate", "gender", "email"])),
    ("servicePrice", Section([])),
    ("services", ListOf(["date", "duration", "code"])),
    ("timestamp", Section([]))]

  const SchemaAttrs: seq<string> := ["author", "therapist", "patient", "servicePrice", "services", "timestamp"]

  const MissingParameter: string := "Missing parameter"
  const ListExpected: string := "List expected"

  /** The error dictionary: error path to message. */
  type Errors = map<string, string>

  /** Python's `key in v` for a text `key`; `None` when Python raises `TypeError`. */
  function PyIn(key: string, v: Json): (r: Option<bool>)
    ensures r.None? <==> !(v.Object? || v.Str? || v.List?)
  {
    match v
    case Object(fields) => Some(key in fields)
    case Str(s) => Some(Text.Contains(s, key))
    case List(items) => Some(Str(key) in items)
    case _ => None
  }

  /** The error path of a list element: `attr[i].` */
  function ElementPrefix(attr: string, i: nat): string
  {
    attr + "[" + Text.NatToString(i) + "]."
  }

  /** Recording each of `subs` absent from `v` under `keyPrefix + sub`, starting from `m`; `None` on `TypeError`. */
  function MissingSubs(m: Errors, keyPrefix: string, subs: seq<string>, v: Json): Option<Errors>
    decreases |subs|
  {
    if |subs| == 0 then Some(m)
    else
      match MissingSubs(m, keyPrefix, subs[..|subs| - 1], v)
      case None => None
      case Some(m1) =>
        var sub := subs[|subs| - 1];
        match PyIn(sub, v)
        case None => None
        case Some(found) => Some(if found then m1 else m1[keyPrefix + sub := MissingParameter])
  }

  /** The sub-key check over every element of a list, element by element. */
  function ElementErrors(m: Errors, attr: string, subs: seq<string>, items: seq<Json>): Option<Errors>
    decreases |items|
  {
    if |items| == 0 then Some(m)
    else
      match ElementErrors(m, attr, subs, items[..|items| - 1])
      case None => None
      case Some(m1) => MissingSubs(m1, ElementPrefix(attr, |items| - 1), subs, items[|items| - 1])
  }

  /** One schema entry: missing, not a list when one is expected, or checked key by key. */
  function EntryErrors(m: Errors, d: map<string, Json>, attr: string, shape: Shape): Option<Errors>
  {
    if attr !in d then Some(m[attr := MissingParameter])
    else
      match shape
      case ListOf(subs) =>
        if d[attr].List? then ElementErrors(m, attr, subs, d[attr].items) else Some(m[attr := ListExpected])
      case Section(subs) => MissingSubs(m, attr + ".", subs, d[attr])
  }

  /** The errors after the first `n` schema entries. */
  function SchemaErrors(d: map<string, Json>, n: nat): Option<Errors>
    requires n <= |Schema|
  {
    if n == 0 then Some(map[])
    else
      match SchemaErrors(d, n - 1)
      case None => None
      case Some(m) => EntryErrors(m, d, Schema[n - 1].0, Schema[n - 1].1)
  }

  /** How `validate` ends: it returns, raises `ValueError` with the error dictionary, or raises `TypeError`. */
  datatype Outcome = Passed | ValueError(missing: Errors) | TypeError

  function ValidateOutcome(d: map<string, Json>): Outcome
  {
    match SchemaErrors(d, |Schema|)
    case None => TypeError
    case Some(m) => if |m| > 0 then ValueError(m) else Passed
  }

  /** The sub-key loop shared by list elements and sections. */
  method CheckSubs(m: Errors, keyPrefix: string, subs: seq<string>, v: Json) returns (r: Option<Errors>)
    ensures r == MissingSubs(m, keyPrefix, subs, v)
  {
    var missing := m;
    var k := 0;
    while k < |subs|
      invariant 0 <= k <= |subs|
      invariant MissingSubs(m, keyPrefix, subs[..k], v) == Some(missing)
    {
      assert subs[..k + 1][..k] == subs[..k];
      var found := PyIn(subs[k], v);
      if found.None? {
        SubsNoneSticks(m, keyPrefix, subs, v, k + 1);
        return None;
      }
      if !found.value {
        missing := missing[keyPrefix + subs[k] := MissingParameter];
      }
      k := k + 1;
    }
    assert subs[..k] == subs;
    r := Some(missing);
  }

  /** The body of the schema loop: one entry checked against the request. */
  method CheckEntry(m: Errors, d: map<string, Json>, attr: string, shape: Shape) returns (r: Option<Errors>)
    ensures r == EntryErrors(m, d, attr, shape)
  {
    if attr !in d {
      return Some(m[attr := MissingParameter]);
    }
    if shape.Section? {
      r := CheckSubs(m, attr + ".", shape.subs, d[attr]);
      return;
    }
    if !d[attr].List? {
      return Some(m[attr := ListExpected]);
    }
    var items := d[attr].items;
    var missing := m;
    var i := 0;
    while i < |items|
      invariant 0 <= i <= |items|
      invariant ElementErrors(m, attr, shape.subs, items[..i]) == Some(missing)
    {
      assert items[..i + 1][..i] == items[..i];
      var sub := CheckSubs(missing, ElementPrefix(attr, i), shape.subs, items[i]);
      if sub.None? {
        ElementNoneSticks(m, attr, shape.subs, items, i + 1);
        return None;
      }
      missing := sub.value;
      i := i + 1;
    }
    assert items[..i] == items;
    r := Some(missing);
  }

  /** `validate`: walks the schema, collecting error paths, and reports how it ends. */
  method Validate(d: map<string, Json>) returns (outcome: Outcome)
    ensures outcome == ValidateOutcome(d)
    ensures outcome.ValueError? ==> |outcome.missing| > 0
  {
    var missing: Errors := map[];
    var j := 0;
    while j < |Schema|
      invariant 0 <= j <= |Schema|
      invariant SchemaErrors(d, j) == Some(missing)
    {
      var r := CheckEntry(missing, d, Schema[j].0, Schema[j].1);
      if r.None? {
        SchemaNoneSticks(d, j + 1);
        return TypeError;
      }
      missing := r.value;
      j := j + 1;
    }
    if |missing| > 0 {
      return ValueError(missing);
    }
    return Passed;
  }

  lemma {:induction false} SubsNoneSticks(m: Errors, keyPrefix: string, subs: seq<string>, v: Json, k: nat)
    requires k <= |subs| && MissingSubs(m, keyPrefix, subs[..k], v).None?
    ensures MissingSubs(m, keyPrefix, subs, v).None?
    decreases |subs| - k
  {
    if k < |subs| {
      assert subs[..k + 1][..k] == subs[..k];
      SubsNoneSticks(m, keyPrefix, subs, v, k + 1);
    } else {
      assert subs[..k] == subs;
    }
  }

  lemma {:induction false} ElementNoneSticks(m: Errors, attr: string, subs: seq<string>, items: seq<Json>, i: nat)
    requires i <= |items| && ElementErrors(m, attr, subs, items[..i]).None?
    ensures ElementErrors(m, attr, subs, items).None?
    decreases |items| - i
  {
    if i < |items| {
      assert items[..i + 1][..i] == items[..i];
      ElementNoneSticks(m, attr, subs, items, i + 1);
    } else {
      assert items[..i] == items;
    }
  }

  lemma {:induction false} SchemaNoneSticks(d: map<string, Json>, n: nat)
    requires n <= |Schema| && SchemaErrors(d, n).None?
    ensures SchemaErrors(d, |Schema|).None?
    decreases |Schema| - n
  {
    if n < |Schema| {
      SchemaNoneSticks(d, n + 1);
    }
  }

  /** The results of a check started from `m`: whatever it records from nothing, added to `m`. */
  function Onto(m: Errors, e: Option<Errors>): Option<Errors>
  {
    if e.None? then None else Some(m + e.value)
  }

  /** The sub-key check adds to the dictionary it is given and depends on nothing else in it. */
  lemma {:induction false} SubsAcc(m: Errors, p: string, subs: seq<string>, v: Json)
    ensures MissingSubs(m, p, subs, v) == Onto(m, MissingSubs(map[], p, subs, v))
    decreases |subs|
  {
    if |subs| > 0 {
      var init := subs[..|subs| - 1];
      var sub := subs[|subs| - 1];
      SubsAcc(m, p, init, v);
      SubsAcc(map[], p, init, v);
      var e0 := MissingSubs(map[], p, init, v);
      if e0.Some? {
        assert map[] + e0.value == e0.value;
        if PyIn(sub, v) == Some(false) {
          assert (m + e0.value)[p + sub := MissingParameter] == m + e0.value[p + sub := MissingParameter];
        }
      }
    } else {
      assert m + map[] == m;
    }
  }

  /** `k` is `p + sub` for a listed `sub` that `in` finds absent from `v`. */
  predicate SubKey(p: string, subs: seq<string>, v: Json, k: string)
  {
    Text.IsPrefix(p, k) && k[|p|..] in subs && PyIn(k[|p|..], v) == Some(false)
  }

  /** The sub-key check records nothing but absent listed sub-keys, each with `Missing parameter`. */
  lemma {:induction false} SubsKeys(p: string, subs: seq<string>, v: Json)
    ensures MissingSubs(map[], p, subs, v).Some? ==>
      var e := MissingSubs(map[], p, subs, v).value;
      forall k :: k in e ==> e[k] == MissingParameter && SubKey(p, subs, v, k)
    decreases |subs|
  {
    if |subs| > 0 {
      var init := subs[..|subs| - 1];
      var sub := subs[|subs| - 1];
      SubsKeys(p, init, v);
      assert subs == init + [sub];
      assert (p + sub)[..|p|] == p && (p + sub)[|p|..] == sub;
      var e0 := MissingSubs(map[], p, init, v);
      if e0.Some? {
        forall k | k in e0.value ensures e0.value[k] == MissingParameter && SubKey(p, subs, v, k) {
          assert SubKey(p, init, v, k);
          assert k[|p|..] in init;
        }
      }
    }
  }

  /** The sub-key check records `keyPrefix + sub` for each listed `sub` that `in` finds absent. */
  lemma {:induction false} SubsHits(m: Errors, p: string, subs: seq<string>, v: Json)
    ensures MissingSubs(m, p, subs, v).Some? ==>
      forall sub :: sub in subs && PyIn(sub, v) == Some(false) ==> p + sub in MissingSubs(m, p, subs, v).value
    decreases |subs|
  {
    if |subs| > 0 {
      var init := subs[..|subs| - 1];
      SubsHits(m, p, init, v);
      assert subs == init + [subs[|subs| - 1]];
    }
  }

  /** The sub-key check never removes a path it is given. */
  lemma {:induction false} SubsGrow(m: Errors, p: string, subs: seq<string>, v: Json)
    ensures MissingSubs(m, p, subs, v).Some? ==> m.Keys <= MissingSubs(m, p, subs, v).value.Keys
  {
    SubsAcc(m, p, subs, v);
  }

  /** The element check adds to the dictionary it is given and depends on nothing else in it. */
  lemma {:induction false} ElementAcc(m: Errors, attr: string, subs: seq<string>, items: seq<Json>)
    ensures ElementErrors(m, attr, subs, items) == Onto(m, ElementErrors(map[], attr, subs, items))
    decreases |items|
  {
    if |items| > 0 {
      var init := items[..|items| - 1];
      var pre := ElementPrefix(attr, |items| - 1);
      var last := items[|items| - 1];
      ElementAcc(m, attr, subs, init);
      ElementAcc(map[], attr, subs, init);
      var e0 := ElementErrors(map[], attr, subs, init);
      if e0.Some? {
        var e1 := e0.value;
        assert map[] + e1 == e1;
        SubsAcc(m + e1, pre, subs, last);
        SubsAcc(e1, pre, subs, last);
        var s0 := MissingSubs(map[], pre, subs, last);
        if s0.Some? {
          assert (m + e1) + s0.value == m + (e1 + s0.value);
        }
      }
    } else {
      assert m + map[] == m;
    }
  }

  /** `k` is `attr[i].sub` for an element `i` from which `in` finds the listed `sub` absent. */
  predicate ElementKey(attr: string, subs: seq<string>, items: seq<Json>, k: string)
  {
    exists i :: 0 <= i < |items| && SubKey(ElementPrefix(attr, i), subs, items[i], k)
  }

  /** The element check records only paths starting with `attr[`, each with `Missing parameter`. */
  lemma {:induction false} ElementPrefixes(attr: string, subs: seq<string>, items: seq<Json>)
    ensures ElementErrors(map[], attr, subs, items).Some? ==>
      var e := ElementErrors(map[], attr, subs, items).value;
      forall k :: k in e ==> Text.IsPrefix(attr + "[", k) && e[k] == MissingParameter
    decreases |items|
  {
    if |items| > 0 {
      var init := items[..|items| - 1];
      var pre := ElementPrefix(attr, |items| - 1);
      ElementPrefixes(attr, subs, init);
      var e0 := ElementErrors(map[], attr, subs, init);
      if e0.Some? {
        var e1 := e0.value;
        SubsAcc(e1, pre, subs, items[|items| - 1]);
        SubsKeys(pre, subs, items[|items| - 1]);
        var s0 := MissingSubs(map[], pre, subs, items[|items| - 1]);
        if s0.Some? {
          var e := e1 + s0.value;
          assert pre[..|attr| + 1] == attr + "[";
          forall k | k in e ensures Text.IsPrefix(attr + "[", k) && e[k] == MissingParameter {
            if k in s0.value {
              assert k[..|pre|] == pre;
              assert k[..|attr| + 1] == pre[..|attr| + 1];
            }
          }
        }
      }
    }
  }

  /** The element check records nothing but absent sub-keys of elements. */
  lemma {:induction false} ElementKeys(attr: string, subs: seq<string>, items: seq<Json>)
    ensures ElementErrors(map[], attr, subs, items).Some? ==>
      forall k :: k in ElementErrors(map[], attr, subs, items).value ==> ElementKey(attr, subs, items, k)
    decreases |items|
  {
    if |items| > 0 {
      var init := items[..|items| - 1];
      var last := |items| - 1;
      var pre := ElementPrefix(attr, last);
      ElementKeys(attr, subs, init);
      var e0 := ElementErrors(map[], attr, subs, init);
      if e0.Some? {
        var e1 := e0.value;
        SubsAcc(e1, pre, subs, items[last]);
        SubsKeys(pre, subs, items[last]);
        var s0 := MissingSubs(map[], pre, subs, items[last]);
        if s0.Some? {
          forall k | k in s0.value ensures ElementKey(attr, subs, items, k) {
            assert SubKey(ElementPrefix(attr, last), subs, items[last], k);
          }
          forall k | k in e1 ensures ElementKey(attr, subs, items, k) {
            var i :| 0 <= i < |init| && SubKey(ElementPrefix(attr, i), subs, init[i], k);
            assert items[i] == init[i];
          }
        }
      }
    }
  }

  /** The element check records `attr[i].sub` for each sub-key that `in` finds absent from element `i`. */
  lemma {:induction false} ElementHits(attr: string, subs: seq<string>, items: seq<Json>)
    ensures ElementErrors(map[], attr, subs, items).Some? ==>
      forall i, sub :: 0 <= i < |items| && sub in subs && PyIn(sub, items[i]) == Some(false) ==>
        ElementPrefix(attr, i) + sub in ElementErrors(map[], attr, subs, items).value
    decreases |items|
  {
    if |items| > 0 {
      var init := items[..|items| - 1];
      var last := |items| - 1;
      var pre := ElementPrefix(attr, last);
      ElementHits(attr, subs, init);
      var e0 := ElementErrors(map[], attr, subs, init);
      if e0.Some? {
        var e1 := e0.value;
        SubsGrow(e1, pre, subs, items[last]);
        SubsHits(e1, pre, subs, items[last]);
        var e := MissingSubs(e1, pre, subs, items[last]);
        if e.Some? {
          forall i, sub | 0 <= i < |items| && sub in subs && PyIn(sub, items[i]) == Some(false)
            ensures ElementPrefix(attr, i) + sub in e.value
          {
            if i < last {
              assert items[i] == init[i];
            }
          }
        }
      }
    }
  }

  /** The part of an error path that names its schema entry: everything before the first `.` or `[`. */
  function Owner(k: string): string
    decreases |k|
  {
    if |k| == 0 || k[0] == '.' || k[0] == '[' then "" else [k[0]] + Owner(k[1..])
  }

  /** A top-level name that cannot be confused with a path: it has no `.` and no `[`. */
  predicate Plain(attr: string)
  {
    '.' !in attr && '[' !in attr
  }

  lemma {:induction false} OwnerOf(attr: string, rest: string)
    requires Plain(attr) && (|rest| == 0 || rest[0] == '.' || rest[0] == '[')
    ensures Owner(attr + rest) == attr
    decreases |attr|
  {
    if |attr| > 0 {
      assert (attr + rest)[1..] == attr[1..] + rest;
      OwnerOf(attr[1..], rest);
    } else {
      assert attr + rest == rest;
    }
  }

  /** A path starting with a plain name followed by `.` or `[` belongs to that name. */
  lemma OwnerOfPrefixed(attr: string, c: char, k: string)
    requires Plain(attr) && (c == '.' || c == '[') && Text.IsPrefix(attr + [c], k)
    ensures Owner(k) == attr
  {
    assert k == attr + k[|attr|..];
    assert k[|attr|..][0] == k[..|attr| + 1][|attr|] == c;
    OwnerOf(attr, k[|attr|..]);
  }

  /** One schema entry adds to what it is given, and everything it records belongs to it. */
  lemma EntryFacts(m: Errors, d: map<string, Json>, attr: string, shape: Shape)
    ensures EntryErrors(m, d, attr, shape) == Onto(m, EntryErrors(map[], d, attr, shape))
    ensures Plain(attr) && EntryErrors(map[], d, attr, shape).Some? ==>
      forall k :: k in EntryErrors(map[], d, attr, shape).value ==> Owner(k) == attr
  {
    if attr !in d {
      assert m[attr := MissingParameter] == m + map[attr := MissingParameter];
      if Plain(attr) { OwnerOf(attr, ""); assert attr + "" == attr; }
    } else if shape.ListOf? {
      if d[attr].List? {
        ElementAcc(m, attr, shape.subs, d[attr].items);
        ElementPrefixes(attr, shape.subs, d[attr].items);
        var e := ElementErrors(map[], attr, shape.subs, d[attr].items);
        if Plain(attr) && e.Some? {
          forall k | k in e.value ensures Owner(k) == attr {
            OwnerOfPrefixed(attr, '[', k);
          }
        }
      } else {
        assert m[attr := ListExpected] == m + map[attr := ListExpected];
        if Plain(attr) { OwnerOf(attr, ""); assert attr + "" == attr; }
      }
    } else {
      SubsAcc(m, attr + ".", shape.subs, d[attr]);
      SubsKeys(attr + ".", shape.subs, d[attr]);
      var e := MissingSubs(map[], attr + ".", shape.subs, d[attr]);
      if Plain(attr) && e.Some? {
        forall k | k in e.value ensures Owner(k) == attr {
          OwnerOfPrefixed(attr, '.', k);
        }
      }
    }
  }

  /** The schema's top-level names, in order: plain and pairwise different. */
  lemma SchemaAttrsFacts()
    ensures |SchemaAttrs| == |Schema|
    ensures forall j :: 0 <= j < |Schema| ==> Schema[j].0 == SchemaAttrs[j] && Plain(SchemaAttrs[j])
    ensures forall i, j :: 0 <= i < j < |SchemaAttrs| ==> SchemaAttrs[i] != SchemaAttrs[j]
  {
  }

  lemma AttrsDistinct(i: nat, j: nat)
    requires i < j < |SchemaAttrs|
    ensures SchemaAttrs[i] != SchemaAttrs[j]
  {
    SchemaAttrsFacts();
  }

  /** What entry `j` records on its own, starting from nothing. */
  function Entry(d: map<string, Json>, j: nat): Option<Errors>
    requires j < |Schema|
  {
    EntryErrors(map[], d, Schema[j].0, Schema[j].1)
  }

  /** Entry `n - 1` adds its own findings to those of the entries before it. */
  lemma SchemaStep(d: map<string, Json>, n: nat)
    requires 0 < n <= |Schema| && SchemaErrors(d, n).Some?
    ensures SchemaErrors(d, n - 1).Some? && Entry(d, n - 1).Some?
    ensures SchemaErrors(d, n).value == SchemaErrors(d, n - 1).value + Entry(d, n - 1).value
    ensures forall k :: k in Entry(d, n - 1).value ==> Owner(k) == SchemaAttrs[n - 1]
  {
    SchemaAttrsFacts();
    var r := SchemaErrors(d, n - 1);
    assert r.Some?;
    EntryFacts(r.value, d, Schema[n - 1].0, Schema[n - 1].1);
  }

  /** Every recorded path belongs to one of the entries checked so far. */
  lemma {:induction false} SchemaOwned(d: map<string, Json>, n: nat)
    requires n <= |Schema|
    ensures SchemaErrors(d, n).Some? ==>
      forall k :: k in SchemaErrors(d, n).value ==> Owner(k) in SchemaAttrs[..n]
  {
    SchemaAttrsFacts();
    if n > 0 && SchemaErrors(d, n).Some? {
      SchemaOwned(d, n - 1);
      SchemaStep(d, n);
      var r := SchemaErrors(d, n - 1).value;
      var e := Entry(d, n - 1).value;
      forall k | k in r + e ensures Owner(k) in SchemaAttrs[..n] {
        if k in e {
          assert SchemaAttrs[..n][n - 1] == SchemaAttrs[n - 1];
        } else {
          assert Owner(k) in SchemaAttrs[..n - 1];
          assert SchemaAttrs[..n - 1] <= SchemaAttrs[..n];
        }
      }
    }
  }

  /** The paths of entry `j` in the final dictionary, when `j` is the last entry checked. */
  lemma EntryViewLast(d: map<string, Json>, n: nat)
    requires 0 < n <= |Schema| && SchemaErrors(d, n).Some?
    ensures Entry(d, n - 1).Some?
    ensures forall k :: Owner(k) == SchemaAttrs[n - 1] ==>
      (k in SchemaErrors(d, n).value <==> k in Entry(d, n - 1).value)
      && (k in Entry(d, n - 1).value ==> SchemaErrors(d, n).value[k] == Entry(d, n - 1).value[k])
  {
    SchemaStep(d, n);
    SchemaOwned(d, n - 1);
    var r := SchemaErrors(d, n - 1).value;
    forall i | 0 <= i < n - 1 ensures SchemaAttrs[i] != SchemaAttrs[n - 1] {
      AttrsDistinct(i, n - 1);
    }
    assert SchemaAttrs[n - 1] !in SchemaAttrs[..n - 1];
    assert forall k :: Owner(k) == SchemaAttrs[n - 1] ==> k !in r;
  }

  /** Adding paths that belong to another entry keeps the view of `owner`'s paths. */
  lemma UnionView(r: Errors, e: Errors, own: Errors, owner: string)
    requires forall k :: Owner(k) == owner ==> (k in r <==> k in own) && (k in own ==> r[k] == own[k])
    requires forall k :: k in e ==> Owner(k) != owner
    ensures forall k :: Owner(k) == owner ==> (k in r + e <==> k in own) && (k in own ==> (r + e)[k] == own[k])
  {
  }

  /**
   * The paths belonging to entry `j` in the final dictionary are exactly those
   * entry `j` records on its own, with the same messages: no entry touches
   * another's paths.
   */
  lemma {:induction false} EntryView(d: map<string, Json>, n: nat, j: nat)
    requires j < n <= |Schema| && SchemaErrors(d, n).Some?
    ensures Entry(d, j).Some?
    ensures forall k :: Owner(k) == SchemaAttrs[j] ==>
      (k in SchemaErrors(d, n).value <==> k in Entry(d, j).value)
      && (k in Entry(d, j).value ==> SchemaErrors(d, n).value[k] == Entry(d, j).value[k])
  {
    if j == n - 1 {
      EntryViewLast(d, n);
    } else {
      SchemaStep(d, n);
      EntryView(d, n - 1, j);
      AttrsDistinct(j, n - 1);
      var r, e := SchemaErrors(d, n - 1).value, Entry(d, n - 1).value;
      assert SchemaErrors(d, n).value == r + e;
      UnionView(r, e, Entry(d, j).value, SchemaAttrs[j]);
    }
  }

  /** The values on which Python's `in` does not raise. */
  predicate Iterable(v: Json)
  {
    v.Object? || v.Str? || v.List?
  }

  lemma {:induction false} SubsDefined(m: Errors, p: string, subs: seq<string>, v: Json)
    requires |subs| == 0 || Iterable(v)
    ensures MissingSubs(m, p, subs, v).Some?
    decreases |subs|
  {
    if |subs| > 0 {
      SubsDefined(m, p, subs[..|subs| - 1], v);
    }
  }

  lemma {:induction false} SubsUndefined(m: Errors, p: string, subs: seq<string>, v: Json)
    requires |subs| > 0 && !Iterable(v)
    ensures MissingSubs(m, p, subs, v).None?
    decreases |subs|
  {
    if |subs| > 1 {
      SubsUndefined(m, p, subs[..|subs| - 1], v);
    }
  }

  lemma {:induction false} ElementsDefined(m: Errors, attr: string, subs: seq<string>, items: seq<Json>)
    requires |subs| == 0 || forall i :: 0 <= i < |items| ==> Iterable(items[i])
    ensures ElementErrors(m, attr, subs, items).Some?
    decreases |items|
  {
    if |items| > 0 {
      var init := items[..|items| - 1];
      assert forall i :: 0 <= i < |init| ==> init[i] == items[i];
      ElementsDefined(m, attr, subs, init);
      SubsDefined(ElementErrors(m, attr, subs, init).value, ElementPrefix(attr, |items| - 1), subs, items[|items| - 1]);
    }
  }

  lemma {:induction false} ElementsUndefined(m: Errors, attr: string, subs: seq<string>, items: seq<Json>, i: nat)
    requires i < |items| && |subs| > 0 && !Iterable(items[i])
    ensures ElementErrors(m, attr, subs, items).None?
    decreases |items|
  {
    var init := items[..|items| - 1];
    if i < |items| - 1 {
      assert init[i] == items[i];
      ElementsUndefined(m, attr, subs, init, i);
    } else {
      var r := ElementErrors(m, attr, subs, init);
      if r.Some? {
        SubsUndefined(r.value, ElementPrefix(attr, i), subs, items[i]);
      }
    }
  }

  /** The value of an entry on which the check does not raise `TypeError`. */
  predicate ShapeTyped(v: Json, shape: Shape)
  {
    match shape
    case Section(subs) => |subs| == 0 || Iterable(v)
    case ListOf(subs) => v.List? ==> |subs| == 0 || forall i :: 0 <= i < |v.items| ==> Iterable(v.items[i])
  }

  /** Every schema entry present in `d` has a value the check can look into. */
  predicate WellTyped(d: map<string, Json>)
  {
    forall j :: 0 <= j < |Schema| && Schema[j].0 in d ==> ShapeTyped(d[Schema[j].0], Schema[j].1)
  }

  lemma EntryDefined(m: Errors, d: map<string, Json>, attr: string, shape: Shape)
    ensures EntryErrors(m, d, attr, shape).Some? <==> (attr in d ==> ShapeTyped(d[attr], shape))
  {
    if attr in d {
      var v := d[attr];
      match shape
      case Section(subs) =>
        if Iterable(v) || |subs| == 0 {
          SubsDefined(m, attr + ".", subs, v);
        } else {
          SubsUndefined(m, attr + ".", subs, v);
        }
      case ListOf(subs) =>
        if v.List? {
          if ShapeTyped(v, shape) {
            ElementsDefined(m, attr, subs, v.items);
          } else {
            var i :| 0 <= i < |v.items| && !Iterable(v.items[i]);
            ElementsUndefined(m, attr, subs, v.items, i);
          }
        }
    }
  }

  lemma {:induction false} SchemaDefined(d: map<string, Json>, n: nat)
    requires n <= |Schema|
    ensures SchemaErrors(d, n).Some? <==>
      forall j :: 0 <= j < n && Schema[j].0 in d ==> ShapeTyped(d[Schema[j].0], Schema[j].1)
  {
    if n > 0 {
      SchemaDefined(d, n - 1);
      var r := SchemaErrors(d, n - 1);
      if r.Some? {
        EntryDefined(r.value, d, Schema[n - 1].0, Schema[n - 1].1);
      }
    }
  }

  /** `validate` raises `TypeError` exactly when some present entry cannot be looked into. */
  lemma TypeErrorExactly(d: map<string, Json>)
    ensures ValidateOutcome(d) == TypeError <==> !WellTyped(d)
  {
    SchemaDefined(d, |Schema|);
  }

  /** A present entry whose value (a number, a Boolean or null) cannot be looked into makes `validate` raise `TypeError`. */
  lemma NotIterableRaises(d: map<string, Json>, j: nat)
    requires j < |Schema| && Schema[j].0 in d && !Iterable(d[Schema[j].0]) && Schema[j].1.Section?
    requires |Schema[j].1.subs| > 0
    ensures ValidateOutcome(d) == TypeError
  {
    TypeErrorExactly(d);
  }

  /** Nothing is missing from an entry: it is there, a list when one is expected, and every listed sub-key is found. */
  predicate ShapeComplete(d: map<string, Json>, attr: string, shape: Shape)
  {
    attr in d &&
    match shape
    case Section(subs) => forall sub :: sub in subs ==> PyIn(sub, d[attr]) == Some(true)
    case ListOf(subs) =>
      d[attr].List? &&
      forall i, sub :: 0 <= i < |d[attr].items| && sub in subs ==> PyIn(sub, d[attr].items[i]) == Some(true)
  }

  lemma SubsDefinedExactly(m: Errors, p: string, subs: seq<string>, v: Json)
    ensures MissingSubs(m, p, subs, v).Some? <==> |subs| == 0 || Iterable(v)
  {
    if |subs| == 0 || Iterable(v) {
      SubsDefined(m, p, subs, v);
    } else {
      SubsUndefined(m, p, subs, v);
    }
  }

  lemma ElementsDefinedExactly(m: Errors, attr: string, subs: seq<string>, items: seq<Json>)
    ensures ElementErrors(m, attr, subs, items).Some? <==>
      |subs| == 0 || forall i :: 0 <= i < |items| ==> Iterable(items[i])
  {
    if |subs| == 0 || forall i :: 0 <= i < |items| ==> Iterable(items[i]) {
      ElementsDefined(m, attr, subs, items);
    } else {
      var i :| 0 <= i < |items| && !Iterable(items[i]);
      ElementsUndefined(m, attr, subs, items, i);
    }
  }

  lemma SectionEmptyExactly(attr: string, subs: seq<string>, v: Json)
    ensures MissingSubs(map[], attr + ".", subs, v) == Some(map[]) <==>
      forall sub :: sub in subs ==> PyIn(sub, v) == Some(true)
  {
    var p := attr + ".";
    SubsDefinedExactly(map[], p, subs, v);
    if forall sub :: sub in subs ==> PyIn(sub, v) == Some(true) {
      if |subs| > 0 {
        assert PyIn(subs[0], v).Some?;
      }
      SubsKeys(p, subs, v);
      assert forall k :: k !in MissingSubs(map[], p, subs, v).value;
    }
    if MissingSubs(map[], p, subs, v) == Some(map[]) {
      SubsHits(map[], p, subs, v);
      forall sub | sub in subs ensures PyIn(sub, v) == Some(true) {
        assert p + sub !in MissingSubs(map[], p, subs, v).value;
      }
    }
  }

  lemma ElementsEmptyWhenComplete(attr: string, subs: seq<string>, items: seq<Json>)
    requires forall i, sub :: 0 <= i < |items| && sub in subs ==> PyIn(sub, items[i]) == Some(true)
    ensures ElementErrors(map[], attr, subs, items) == Some(map[])
  {
    if |subs| > 0 {
      assert subs[0] in subs;
      forall i | 0 <= i < |items| ensures Iterable(items[i]) {
        assert PyIn(subs[0], items[i]) == Some(true);
      }
    }
    ElementsDefinedExactly(map[], attr, subs, items);
    ElementKeys(attr, subs, items);
    var e := ElementErrors(map[], attr, subs, items).value;
    assert forall k :: k !in e;
  }

  lemma ElementsCompleteWhenEmpty(attr: string, subs: seq<string>, items: seq<Json>)
    requires ElementErrors(map[], attr, subs, items) == Some(map[])
    ensures forall i, sub :: 0 <= i < |items| && sub in subs ==> PyIn(sub, items[i]) == Some(true)
  {
    ElementsDefinedExactly(map[], attr, subs, items);
    ElementHits(attr, subs, items);
    var e := ElementErrors(map[], attr, subs, items).value;
    forall i, sub | 0 <= i < |items| && sub in subs ensures PyIn(sub, items[i]) == Some(true) {
      assert ElementPrefix(attr, i) + sub !in e;
    }
  }

  lemma ListEmptyExactly(attr: string, subs: seq<string>, items: seq<Json>)
    ensures ElementErrors(map[], attr, subs, items) == Some(map[]) <==>
      forall i, sub :: 0 <= i < |items| && sub in subs ==> PyIn(sub, items[i]) == Some(true)
  {
    if forall i, sub :: 0 <= i < |items| && sub in subs ==> PyIn(sub, items[i]) == Some(true) {
      ElementsEmptyWhenComplete(attr, subs, items);
    }
    if ElementErrors(map[], attr, subs, items) == Some(map[]) {
      ElementsCompleteWhenEmpty(attr, subs, items);
    }
  }

  /** An entry records nothing on its own exactly when nothing is missing from it. */
  lemma EntryEmptyExactly(d: map<string, Json>, attr: string, shape: Shape)
    ensures EntryErrors(map[], d, attr, shape) == Some(map[]) <==> ShapeComplete(d, attr, shape)
  {
    if attr !in d {
      assert attr in map[][attr := MissingParameter];
    } else {
      match shape
      case Section(subs) =>
        SectionEmptyExactly(attr, subs, d[attr]);
      case ListOf(subs) =>
        if d[attr].List? {
          ListEmptyExactly(attr, subs, d[attr].items);
        } else {
          assert attr in map[][attr := ListExpected];
        }
    }
  }

  lemma {:induction false} SchemaEmpty(d: map<string, Json>, n: nat)
    requires n <= |Schema|
    requires forall j :: 0 <= j < n ==> ShapeComplete(d, Schema[j].0, Schema[j].1)
    ensures SchemaErrors(d, n) == Some(map[])
  {
    if n > 0 {
      SchemaEmpty(d, n - 1);
      EntryFacts(map[], d, Schema[n - 1].0, Schema[n - 1].1);
      EntryEmptyExactly(d, Schema[n - 1].0, Schema[n - 1].1);
      var none: Errors := map[];
      assert none + none == none;
    }
  }

  /** `validate` returns normally exactly when nothing is missing from any schema entry. */
  lemma PassedExactly(d: map<string, Json>)
    ensures ValidateOutcome(d) == Passed <==>
      forall j :: 0 <= j < |Schema| ==> ShapeComplete(d, Schema[j].0, Schema[j].1)
  {
    if ValidateOutcome(d) == Passed {
      var m := SchemaErrors(d, |Schema|).value;
      assert |m| == 0;
      SchemaAttrsFacts();
      forall j | 0 <= j < |Schema| ensures ShapeComplete(d, Schema[j].0, Schema[j].1) {
        EntryView(d, |Schema|, j);
        EntryFacts(map[], d, Schema[j].0, Schema[j].1);
        var e := Entry(d, j).value;
        assert forall k :: k in e ==> k in m;
        assert e == map[];
        EntryEmptyExactly(d, Schema[j].0, Schema[j].1);
      }
    }
    if forall j :: 0 <= j < |Schema| ==> ShapeComplete(d, Schema[j].0, Schema[j].1) {
      SchemaEmpty(d, |Schema|);
    }
  }

  /** The error dictionary `validate` raises with, or nothing when it returns or raises `TypeError`. */
  function Reported(d: map<string, Json>): Errors
  {
    var o := ValidateOutcome(d);
    if o.ValueError? then o.missing else map[]
  }

  /**
   * When the check does not raise `TypeError`, the reported paths of entry
   * `j` are those entry `j` records on its own.
   */
  lemma ReportedView(d: map<string, Json>, j: nat)
    requires j < |Schema| && WellTyped(d)
    ensures Entry(d, j).Some?
    ensures forall k :: Owner(k) == SchemaAttrs[j] ==>
      (k in Reported(d) <==> k in Entry(d, j).value)
      && (k in Entry(d, j).value ==> Reported(d)[k] == Entry(d, j).value[k])
  {
    TypeErrorExactly(d);
    EntryView(d, |Schema|, j);
  }

  /** A missing top-level entry is reported under its own name, as `Missing parameter`, and nothing more of it. */
  lemma MissingTopLevel(d: map<string, Json>, j: nat)
    requires j < |Schema| && WellTyped(d) && SchemaAttrs[j] !in d
    ensures ValidateOutcome(d).ValueError?
    ensures var m := ValidateOutcome(d).missing;
      SchemaAttrs[j] in m && m[SchemaAttrs[j]] == MissingParameter
      && forall k :: k in m && Owner(k) == SchemaAttrs[j] ==> k == SchemaAttrs[j]
  {
    SchemaAttrsFacts();
    ReportedView(d, j);
    OwnerOf(SchemaAttrs[j], "");
    assert SchemaAttrs[j] + "" == SchemaAttrs[j];
    assert Entry(d, j) == Some(map[SchemaAttrs[j] := MissingParameter]);
  }

  /** `services` present but not a list is reported as `List expected`, and nothing more of it. */
  lemma ServicesNotAList(d: map<string, Json>)
    requires WellTyped(d) && "services" in d && !d["services"].List?
    ensures ValidateOutcome(d).ValueError?
    ensures var m := ValidateOutcome(d).missing;
      "services" in m && m["services"] == ListExpected
      && forall k :: k in m && Owner(k) == "services" ==> k == "services"
  {
    SchemaAttrsFacts();
    ReportedView(d, 4);
    OwnerOf("services", "");
    assert "services" + "" == "services";
    assert Entry(d, 4) == Some(map["services" := ListExpected]);
  }

  lemma SchemaName(j: nat)
    requires j < |Schema|
    ensures Schema[j].0 == SchemaAttrs[j] && Plain(SchemaAttrs[j])
  {
    SchemaAttrsFacts();
  }

  /** What a present section records on its own: the absent listed sub-keys, as `Missing parameter`. */
  lemma SectionEntryKeys(d: map<string, Json>, attr: string, subs: seq<string>)
    requires attr in d && (|subs| == 0 || Iterable(d[attr]))
    ensures EntryErrors(map[], d, attr, Section(subs)).Some?
    ensures var e := EntryErrors(map[], d, attr, Section(subs)).value;
      forall k :: (k in e <==> SubKey(attr + ".", subs, d[attr], k)) && (k in e ==> e[k] == MissingParameter)
  {
    var p := attr + ".";
    var v := d[attr];
    SubsDefined(map[], p, subs, v);
    SubsKeys(p, subs, v);
    SubsHits(map[], p, subs, v);
    forall k | SubKey(p, subs, v, k) ensures k in MissingSubs(map[], p, subs, v).value {
      assert k == p + k[|p|..];
    }
  }

  /** What a list entry records on its own: the absent sub-keys of its elements, as `Missing parameter`. */
  lemma ListEntryKeys(d: map<string, Json>, attr: string, subs: seq<string>)
    requires attr in d && d[attr].List?
    requires |subs| == 0 || forall i :: 0 <= i < |d[attr].items| ==> Iterable(d[attr].items[i])
    ensures EntryErrors(map[], d, attr, ListOf(subs)).Some?
    ensures var e := EntryErrors(map[], d, attr, ListOf(subs)).value;
      forall k :: (k in e <==> ElementKey(attr, subs, d[attr].items, k)) && (k in e ==> e[k] == MissingParameter)
  {
    var items := d[attr].items;
    ElementsDefined(map[], attr, subs, items);
    ElementKeys(attr, subs, items);
    ElementPrefixes(attr, subs, items);
    forall k | ElementKey(attr, subs, items, k) ensures k in ElementErrors(map[], attr, subs, items).value {
      ElementKeyHit(attr, subs, items, k);
    }
  }

  lemma ElementKeyHit(attr: string, subs: seq<string>, items: seq<Json>, k: string)
    requires ElementErrors(map[], attr, subs, items).Some? && ElementKey(attr, subs, items, k)
    ensures k in ElementErrors(map[], attr, subs, items).value
  {
    var i :| 0 <= i < |items| && SubKey(ElementPrefix(attr, i), subs, items[i], k);
    var pre := ElementPrefix(attr, i);
    assert k == pre + k[|pre|..];
    ElementHits(attr, subs, items);
  }

  /**
   * For a present section, the reported paths under its name are exactly
   * `attr.sub` for the listed sub-keys it lacks, each as `Missing parameter`.
   */
  lemma SectionReported(d: map<string, Json>, j: nat)
    requires j < |Schema| && WellTyped(d) && Schema[j].1.Section? && SchemaAttrs[j] in d
    ensures forall k :: Owner(k) == SchemaAttrs[j] ==>
      (k in Reported(d) <==> SubKey(SchemaAttrs[j] + ".", Schema[j].1.subs, d[SchemaAttrs[j]], k))
      && (k in Reported(d) ==> Reported(d)[k] == MissingParameter)
  {
    SchemaName(j);
    ReportedView(d, j);
    assert ShapeTyped(d[Schema[j].0], Schema[j].1);
    SectionEntryKeys(d, SchemaAttrs[j], Schema[j].1.subs);
  }

  /**
   * For `services` given as a list, the reported paths under its name are
   * exactly `services[i].sub` for the sub-keys element `i` lacks, each as
   * `Missing parameter`.
   */
  lemma ServicesReported(d: map<string, Json>)
    requires WellTyped(d) && "services" in d && d["services"].List?
    ensures forall k :: Owner(k) == "services" ==>
      (k in Reported(d) <==> ElementKey("services", ["date", "duration", "code"], d["services"].items, k))
      && (k in Reported(d) ==> Reported(d)[k] == MissingParameter)
  {
    SchemaName(4);
    ReportedView(d, 4);
    assert Schema[4].1 == ListOf(["date", "duration", "code"]);
    assert ShapeTyped(d[Schema[4].0], Schema[4].1);
    ListEntryKeys(d, "services", ["date", "duration", "code"]);
  }

  /** A listed sub-key absent from a present section is reported as `attr.sub`, with `Missing parameter`. */
  lemma SectionSubMissing(d: map<string, Json>, j: nat, sub: string)
    requires j < |Schema| && WellTyped(d) && Schema[j].1.Section? && SchemaAttrs[j] in d
    requires sub in Schema[j].1.subs && PyIn(sub, d[SchemaAttrs[j]]) == Some(false)
    ensures ValidateOutcome(d).ValueError?
    ensures SchemaAttrs[j] + "." + sub in ValidateOutcome(d).missing
    ensures ValidateOutcome(d).missing[SchemaAttrs[j] + "." + sub] == MissingParameter
  {
    var attr := SchemaAttrs[j];
    var k := attr + "." + sub;
    SchemaName(j);
    SectionReported(d, j);
    assert k[..|attr + "."|] == attr + "." && k[|attr + "."|..] == sub;
    OwnerOfPrefixed(attr, '.', k);
    assert k in Reported(d);
  }

  /** A request whose author lacks `name` is turned down with `author.name` reported missing. */
  lemma AuthorNameMissing(d: map<string, Json>)
    requires WellTyped(d) && "author" in d && d["author"].Object? && "name" !in d["author"].fields
    ensures ValidateOutcome(d).ValueError?
    ensures "author.name" in ValidateOutcome(d).missing
    ensures ValidateOutcome(d).missing["author.name"] == MissingParameter
  {
    assert SchemaAttrs[0] == "author" && Schema[0].1.Section?;
    assert "name" in Schema[0].1.subs;
    SectionSubMissing(d, 0, "name");
    assert SchemaAttrs[0] + "." + "name" == "author.name";
  }

  lemma {:induction false} SchemaIgnores(d: map<string, Json>, key: string, v: Json, n: nat)
    requires n <= |Schema| && key !in SchemaAttrs
    ensures SchemaErrors(d[key := v], n) == SchemaErrors(d, n)
  {
    if n > 0 {
      SchemaAttrsFacts();
      SchemaIgnores(d, key, v, n - 1);
      assert Schema[n - 1].0 != key;
    }
  }

  /** Keys outside the schema have no effect on `validate`. */
  lemma ExtraKeysIgnored(d: map<string, Json>, key: string, v: Json)
    requires key !in SchemaAttrs
    ensures ValidateOutcome(d[key := v]) == ValidateOutcome(d)
  {
    SchemaIgnores(d, key, v, |Schema|);
  }

  /**
   * Schema entry `k` raises on a body that is not an object: `in` itself
   * raises, or finds the key and the entry then indexes the body with a text
   * key. Entries declared `{}` index nothing, since their sub-key loop is empty.
   */
  predicate EntryRaises(body: Json, k: nat)
    requires k < |Schema|
  {
    var found := PyIn(Schema[k].0, body);
    found.None? || (found == Some(true) && Schema[k].1 != Section([]))
  }

  /** The schema loop over the first `n` entries when the decoded body is not an object. */
  function TopErrors(body: Json, n: nat): Option<Errors>
    requires n <= |Schema|
  {
    if n == 0 then Some(map[])
    else
      match TopErrors(body, n - 1)
      case None => None
      case Some(m) =>
        if EntryRaises(body, n - 1) then None
        else if PyIn(Schema[n - 1].0, body) == Some(false) then Some(m[Schema[n - 1].0 := MissingParameter])
        else Some(m)
  }

  /** How `validate` ends on whatever the request decodes to. */
  function BodyOutcome(body: Json): Outcome
  {
    if body.Object? then ValidateOutcome(body.fields)
    else
      match TopErrors(body, |Schema|)
      case None => TypeError
      case Some(m) => if |m| > 0 then ValueError(m) else Passed
  }

  /** `validate` applied to the decoded request body, object or not. */
  method ValidateBody(body: Json) returns (outcome: Outcome)
    ensures outcome == BodyOutcome(body)
    ensures outcome.ValueError? ==> |outcome.missing| > 0
  {
    if body.Object? {
      outcome := Validate(body.fields);
      return;
    }
    var missing: Errors := map[];
    var j := 0;
    while j < |Schema|
      invariant 0 <= j <= |Schema|
      invariant TopErrors(body, j) == Some(missing)
    {
      if EntryRaises(body, j) {
        TopNoneSticks(body, j + 1);
        return TypeError;
      }
      if PyIn(Schema[j].0, body) == Some(false) {
        missing := missing[Schema[j].0 := MissingParameter];
      }
      j := j + 1;
    }
    if |missing| > 0 {
      return ValueError(missing);
    }
    return Passed;
  }

  lemma {:induction false} TopNoneSticks(body: Json, n: nat)
    requires n <= |Schema| && TopErrors(body, n).None?
    ensures TopErrors(body, |Schema|).None?
    decreases |Schema| - n
  {
    if n < |Schema| {
      TopNoneSticks(body, n + 1);
    }
  }

  /** The top-level names among the first `n` that `in` finds absent from `body`, each as `Missing parameter`. */
  function AbsentNames(body: Json, n: nat): Errors
    requires n <= |SchemaAttrs|
  {
    map a | a in SchemaAttrs[..n] && PyIn(a, body) == Some(false) :: MissingParameter
  }

  /** Adding name `n - 1` to the absent names: recorded exactly when `in` finds it absent. */
  lemma AbsentNamesStep(body: Json, n: nat)
    requires 0 < n <= |SchemaAttrs|
    ensures AbsentNames(body, n) ==
      if PyIn(SchemaAttrs[n - 1], body) == Some(false)
      then AbsentNames(body, n - 1)[SchemaAttrs[n - 1] := MissingParameter]
      else AbsentNames(body, n - 1)
  {
    assert SchemaAttrs[..n] == SchemaAttrs[..n - 1] + [SchemaAttrs[n - 1]];
  }

  lemma AttrAt(k: nat)
    requires k < |Schema|
    ensures k < |SchemaAttrs| && Schema[k].0 == SchemaAttrs[k]
  {
  }

  /** The loop over a non-object body raises at the first raising entry, and otherwise records exactly the absent names. */
  lemma {:induction false} TopErrorsMeaning(body: Json, n: nat)
    requires n <= |Schema|
    ensures TopErrors(body, n) ==
      if exists k :: 0 <= k < n && EntryRaises(body, k) then None else Some(AbsentNames(body, n))
  {
    if n > 0 {
      TopErrorsMeaning(body, n - 1);
      AttrAt(n - 1);
      AbsentNamesStep(body, n);
    }
  }

  /**
   * On a body that is not an object, `validate` raises `TypeError` exactly
   * when some entry raises, and otherwise raises `ValueError` with every
   * top-level name `in` finds absent; it never returns normally, since a body
   * that does not raise on `author` lacks it.
   */
  lemma NonObjectBody(body: Json)
    requires !body.Object?
    ensures BodyOutcome(body) ==
      if exists k :: 0 <= k < |Schema| && EntryRaises(body, k) then TypeError
      else ValueError(AbsentNames(body, |Schema|))
  {
    TopErrorsMeaning(body, |Schema|);
    SchemaAttrsFacts();
    if !exists k :: 0 <= k < |Schema| && EntryRaises(body, k) {
      assert !EntryRaises(body, 0);
      assert "author" in AbsentNames(body, |Schema|);
    }
  }

  /** An empty JSON array contains none of the names: all six are reported missing. */
  lemma EmptyListBody()
    ensures BodyOutcome(List([])) == ValueError(map a | a in SchemaAttrs :: MissingParameter)
  {
    NonObjectBody(List([]));
    SchemaAttrsFacts();
    assert SchemaAttrs[..|Schema|] == SchemaAttrs;
    assert AbsentNames(List([]), |Schema|) == map a | a in SchemaAttrs :: MissingParameter;
  }

  /** `null`, a number or a Boolean cannot be searched with `in`: `TypeError` on the first entry. */
  lemma ScalarBodyRaises(body: Json)
    requires body.Null? || body.Number? || body.Bool?
    ensures BodyOutcome(body) == TypeError
  {
    NonObjectBody(body);
    assert EntryRaises(body, 0);
  }

  /** A text containing `author` passes the first `in` and then fails indexing it with a text key. */
  lemma TextNamingAuthorRaises(s: string)
    requires Text.Contains(s, "author")
    ensures BodyOutcome(Str(s)) == TypeError
  {
    NonObjectBody(Str(s));
    assert EntryRaises(Str(s), 0);
  }

  /** The invoice of the dictionary-based revision, with the parts the Data Matrix text reads. */
  datatype Invoice = Invoice(
    author: DictEntities.Dict,
    therapist: DictEntities.Dict,
    patient: DictEntities.Patient,
    therapyStartDate: string,
    serviceAmounts: seq<int>)

  /** `GLN_list`: the author's GLN as 1, the therapist's as 2. */
  function GlnList(inv: Invoice): string
  {
    "1/" + DictEntities.Gln(inv.author) + " 2/" + DictEntities.Gln(inv.therapist)
  }

  /** Both entities carry the same placeholder GLN, so the list is the same for every invoice. */
  lemma GlnListConstant(inv: Invoice)
    ensures GlnList(inv) == "1/2099999999999 2/2099999999999"
  {
    DictEntities.GlnIsConstant(inv.author, inv.therapist);
  }

  /** The fixed part of the Data Matrix text, once the ESR line and the SSN are there. */
  function DatamatrixPrefix(inv: Invoice): string
    requires DictEntities.EsrCodingLine(inv.author).Some? && DictEntities.Ssn(inv.patient).Some?
  {
    Datamatrix.Prefix(DictEntities.EsrCodingLine(inv.author).value, DictEntities.Gln(inv.author),
                      DictEntities.Gln(inv.therapist), inv.therapyStartDate,
                      DictEntities.Ssn(inv.patient).value, inv.patient.birthdate)
  }

  /**
   * `generate_datamatrix_string`: no text when the ESR line or the SSN is
   * absent or empty, and otherwise the fixed part and one digit per service,
   * forced to exactly 169 characters.
   */
  method GenerateDatamatrixString(inv: Invoice) returns (r: Option<string>)
    ensures r.None? <==> Falsy(DictEntities.EsrCodingLine(inv.author)) || Falsy(DictEntities.Ssn(inv.patient))
    ensures r.Some? ==>
      && DictEntities.EsrCodingLine(inv.author).Some? && DictEntities.Ssn(inv.patient).Some?
      && |r.value| == 169
      && r.value == Datamatrix.FitToLength(DatamatrixPrefix(inv) + Datamatrix.ServiceDigits(inv.serviceAmounts))
  {
    if Falsy(DictEntities.EsrCodingLine(inv.author)) || Falsy(DictEntities.Ssn(inv.patient)) {
      return None;
    }
    var s := Datamatrix.Assemble(DatamatrixPrefix(inv), inv.serviceAmounts);
    r := Some(s);
  }

  /**
   * Split on `#`, the fixed part holds the ESR line, the two GLNs, the start
   * date, the SSN, the birth date and the due amount `0`, when none of the
   * inserted texts holds a `#`.
   */
  lemma DatamatrixPrefixFields(inv: Invoice)
    requires DictEntities.EsrCodingLine(inv.author).Some? && DictEntities.Ssn(inv.patient).Some?
    requires '#' !in DictEntities.EsrCodingLine(inv.author).value && '#' !in DictEntities.Ssn(inv.patient).value
    requires '#' !in inv.therapyStartDate && '#' !in inv.patient.birthdate
    ensures Text.Split(DatamatrixPrefix(inv), "#") ==
      [inv.author["ESR"], "2099999999999", "2099999999999", inv.therapyStartDate,
       inv.patient.dict["SSN"], inv.patient.birthdate, "0", ""]
  {
    DictEntities.GlnIsConstant(inv.author, inv.therapist);
    Datamatrix.PrefixFields(DictEntities.EsrCodingLine(inv.author).value, DictEntities.Gln(inv.author),
                            DictEntities.Gln(inv.therapist), inv.therapyStartDate,
                            DictEntities.Ssn(inv.patient).value, inv.patient.birthdate);
  }
}
