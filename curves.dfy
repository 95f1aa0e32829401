/** The curve-selection and colour-palette manager of GUIBackend.py: the ordered list
    of plotted (topic, field) entries, the ten-colour palette with its occupied flags,
    the display defaults, and the "topic->field" naming used to identify entries. */
module Curves {
  import opened Common

  // ---------------------------------------------------------------------------
  // Combined names
  // ---------------------------------------------------------------------------

  /** get_name_combined */
  function Combined(topic: string, field: string): string
  {
    topic + "->" + field
  }

  /** The separator "->" starts at position i of s. */
  predicate SepAt(s: string, i: int)
  {
    0 <= i && i + 1 < |s| && s[i] == '-' && s[i + 1] == '>'
  }

  predicate HasSep(s: string)
  {
    exists i :: 0 <= i < |s| && SepAt(s, i)
  }

  /** Position of the first separator at or after `from`. */
  function FindSep(s: string, from: nat): (r: Option<nat>)
    ensures r.Some? ==> from <= r.value && SepAt(s, r.value)
    ensures r.Some? ==> forall j :: from <= j < r.value ==> !SepAt(s, j)
    ensures r.None? ==> forall j :: from <= j ==> !SepAt(s, j)
    decreases |s| - from
  {
    if from + 1 >= |s| then None
    else if SepAt(s, from) then Some(from)
    else FindSep(s, from + 1)
  }

  /** Python's `s.split('->')`. */
  function Split(s: string): (parts: seq<string>)
    ensures |parts| >= 1
    ensures (|parts| == 1) == !HasSep(s)
    ensures parts[0] <= s && !HasSep(parts[0])
    ensures |parts| == 1 ==> parts[0] == s
    ensures |parts| > 1 ==> SepAt(s, |parts[0]|)
    ensures |parts| > 1 ==>
      var rest := s[|parts[0]| + 2..];
      parts[1] <= rest && !HasSep(parts[1]) && (parts[1] == rest || SepAt(rest, |parts[1]|))
    decreases |s|
  {
    match FindSep(s, 0)
    case None => [s]
    case Some(i) =>
      var head := s[..i];
      assert !HasSep(head) by {
        forall j | SepAt(head, j) ensures false {
          assert SepAt(s, j);
        }
      }
      [head] + Split(s[i + 2..])
  }

  /** Why `get_name_seperate` raises: `split('->')[1]` has no second segment. */
  datatype NameError = NoSeparator

  /** get_name_seperate: the first two segments of the split; later segments are dropped. */
  function Separate(name: string): (r: Result<(string, string), NameError>)
    ensures r.Err? <==> !HasSep(name)
    ensures r.Ok? ==>
      var (topic, field) := r.value;
      && !HasSep(topic) && !HasSep(field)
      && Combined(topic, field) <= name
      && (Combined(topic, field) == name || SepAt(name, |Combined(topic, field)|))
  {
    var parts := Split(name);
    if |parts| < 2 then Err(NoSeparator)
    else
      var topic, field := parts[0], parts[1];
      var rest := name[|topic| + 2..];
      assert name == topic + "->" + rest;
      assert field <= rest;
      assert Combined(topic, field) <= name;
      assert SepAt(rest, |field|) ==> SepAt(name, |Combined(topic, field)|);
      Ok((topic, field))
  }

  /** Scanning t + "->" + f finds no separator before the one that was inserted. */
  lemma FirstSepIsInserted(t: string, f: string, j: nat)
    requires !HasSep(t) && j <= |t|
    ensures FindSep(Combined(t, f), j) == Some(|t|)
    decreases |t| - j
  {
    var s := Combined(t, f);
    assert SepAt(s, |t|);
    if j < |t| {
      assert !SepAt(s, j) by {
        if j + 1 < |t| {
          assert s[j] == t[j] && s[j + 1] == t[j + 1];
          assert !SepAt(t, j);
        } else {
          assert s[j + 1] == '-';
        }
      }
      FirstSepIsInserted(t, f, j + 1);
    }
  }

  lemma {:induction false} SeparateCombined(topic: string, field: string)
    requires !HasSep(topic) && !HasSep(field)
    ensures Separate(Combined(topic, field)) == Ok((topic, field))
  {
    var s := Combined(topic, field);
    FirstSepIsInserted(topic, field, 0);
    assert s[..|topic|] == topic;
    assert s[|topic| + 2..] == field;
    assert FindSep(field, 0).None?;
    assert Split(s) == [topic] + Split(field) == [topic, field];
  }

  /** A field name that itself holds "->" does not survive the round trip: only the
      segment before its first separator comes back. */
  lemma {:induction false} SeparateDropsTail(topic: string, field: string, tail: string)
    requires !HasSep(topic) && !HasSep(field)
    ensures Separate(Combined(topic, field + "->" + tail)) == Ok((topic, field))
  {
    var s := Combined(topic, field + "->" + tail);
    FirstSepIsInserted(topic, field + "->" + tail, 0);
    assert s[..|topic|] == topic;
    assert s[|topic| + 2..] == Combined(field, tail);
    FirstSepIsInserted(field, tail, 0);
    assert Combined(field, tail)[..|field|] == field;
    assert Split(Combined(field, tail))[0] == field;
    assert Split(s) == [topic] + Split(Combined(field, tail));
  }

  /** Without separators inside the names, the combined name identifies the pair. */
  lemma CombinedInjective(t1: string, f1: string, t2: string, f2: string)
    requires !HasSep(t1) && !HasSep(f1) && !HasSep(t2) && !HasSep(f2)
    requires Combined(t1, f1) == Combined(t2, f2)
    ensures t1 == t2 && f1 == f2
  {
    SeparateCombined(t1, f1);
    SeparateCombined(t2, f2);
  }

  /** With a separator inside a name, two different pairs share one combined name. */
  lemma CombinedCollision()
    ensures Combined("a->b", "c") == Combined("a", "b->c")
    ensures ("a->b", "c") != ("a", "b->c")
  {
  }

  // ---------------------------------------------------------------------------
  // Entries and the palette
  // ---------------------------------------------------------------------------

  datatype Rgb = Rgb(r: int, g: int, b: int)

  /** CurveClass */
  datatype Curve = Curve(topic: string, field: string, topicAndField: string, colorKey: string, color: Rgb)

  /** CurveClass.__init__: the combined name is computed from the pair. */
  function NewCurve(topic: string, field: string, colorKey: string, color: Rgb): Curve
  {
    Curve(topic, field, Combined(topic, field), colorKey, color)
  }

  /** The stored combined name of an entry always splits, and gives back the entry's
      own pair when neither name holds a separator. */
  lemma NewCurveSplits(topic: string, field: string, colorKey: string, color: Rgb)
    ensures var c := NewCurve(topic, field, colorKey, color);
      && Separate(c.topicAndField).Ok?
      && (!HasSep(topic) && !HasSep(field) ==> Separate(c.topicAndField) == Ok((c.topic, c.field)))
  {
    assert SepAt(Combined(topic, field), |topic|);
    if !HasSep(topic) && !HasSep(field) {
      SeparateCombined(topic, field);
    }
  }

  const PaletteKeys: seq<string> := ["C0", "C1", "C2", "C3", "C4", "C5", "C6", "C7", "C8", "C9"]

  const PaletteColors: seq<Rgb> := [
    Rgb(31, 119, 180), Rgb(255, 127, 14), Rgb(44, 160, 44), Rgb(214, 39, 40), Rgb(148, 103, 189),
    Rgb(140, 86, 75), Rgb(227, 119, 194), Rgb(127, 127, 127), Rgb(188, 189, 34), Rgb(23, 190, 207)]

  const PaletteSize: nat := 10

  const PaletteKeySet: set<string> := set i | 0 <= i < PaletteSize :: PaletteKeys[i]

  lemma PaletteKeysDistinct()
    ensures |PaletteKeys| == |PaletteColors| == PaletteSize
    ensures forall i, j :: 0 <= i < j < PaletteSize ==> PaletteKeys[i] != PaletteKeys[j]
  {
    forall i, j | 0 <= i < j < PaletteSize ensures PaletteKeys[i] != PaletteKeys[j] {
      assert PaletteKeys[i][1] != PaletteKeys[j][1];
    }
  }

  /** The palette with every colour free, as __init__ and clear_curve_list leave it. */
  function AllFree(): (occ: map<string, bool>)
    ensures occ.Keys == PaletteKeySet
    ensures forall k :: k in occ ==> !occ[k]
  {
    map k | k in PaletteKeySet :: false
  }

  /** The colour keys whose flag is set. */
  function OccupiedSet(occ: map<string, bool>): set<string>
  {
    set k | k in occ && occ[k]
  }

  /** First palette position at or after `from` whose colour is free, in C0..C9 order. */
  function FirstFree(occ: map<string, bool>, from: nat): (r: Option<nat>)
    requires PaletteKeySet <= occ.Keys
    ensures r.Some? ==> from <= r.value < PaletteSize && !occ[PaletteKeys[r.value]]
    ensures r.Some? ==> forall j :: from <= j < r.value ==> occ[PaletteKeys[j]]
    ensures r.None? ==> forall j :: from <= j < PaletteSize ==> occ[PaletteKeys[j]]
    decreases PaletteSize - from
  {
    if from >= PaletteSize then None
    else
      assert PaletteKeys[from] in PaletteKeySet;
      if !occ[PaletteKeys[from]] then Some(from) else FirstFree(occ, from + 1)
  }

  // ---------------------------------------------------------------------------
  // Projections, images and distinctness of the entry list
  // ---------------------------------------------------------------------------

  function KeyOf(c: Curve): string { c.colorKey }

  function NameOf(c: Curve): string { c.topicAndField }

  function Image(s: seq<Curve>, p: Curve -> string): set<string>
  {
    set i | 0 <= i < |s| :: p(s[i])
  }

  predicate DistinctBy(s: seq<Curve>, p: Curve -> string)
  {
    forall i, j :: 0 <= i < j < |s| ==> p(s[i]) != p(s[j])
  }

  lemma ImageCons(c: Curve, s: seq<Curve>, p: Curve -> string)
    ensures Image([c] + s, p) == {p(c)} + Image(s, p)
  {
    var t := [c] + s;
    forall x | x in Image(t, p) ensures x in {p(c)} + Image(s, p) {
      var i :| 0 <= i < |t| && p(t[i]) == x;
      if i > 0 { assert t[i] == s[i - 1]; }
    }
    forall x | x in Image(s, p) ensures x in Image(t, p) {
      var i :| 0 <= i < |s| && p(s[i]) == x;
      assert t[i + 1] == s[i];
    }
    assert t[0] == c;
  }

  lemma ImageSnoc(s: seq<Curve>, c: Curve, p: Curve -> string)
    ensures Image(s + [c], p) == Image(s, p) + {p(c)}
  {
    var t := s + [c];
    forall x | x in Image(t, p) ensures x in Image(s, p) + {p(c)} {
      var i :| 0 <= i < |t| && p(t[i]) == x;
      if i < |s| { assert t[i] == s[i]; }
    }
    forall x | x in Image(s, p) ensures x in Image(t, p) {
      var i :| 0 <= i < |s| && p(s[i]) == x;
      assert t[i] == s[i];
    }
    assert t[|s|] == c;
  }

  lemma DistinctCons(c: Curve, s: seq<Curve>, p: Curve -> string)
    ensures DistinctBy([c] + s, p) <==> p(c) !in Image(s, p) && DistinctBy(s, p)
  {
    var t := [c] + s;
    assert t[0] == c;
    if DistinctBy(t, p) {
      forall i, j | 0 <= i < j < |s| ensures p(s[i]) != p(s[j]) {
        assert t[i + 1] == s[i] && t[j + 1] == s[j];
      }
      forall i | 0 <= i < |s| ensures p(s[i]) != p(c) {
        assert t[i + 1] == s[i];
      }
    }
    if p(c) !in Image(s, p) && DistinctBy(s, p) {
      forall i, j | 0 <= i < j < |t| ensures p(t[i]) != p(t[j]) {
        assert t[j] == s[j - 1];
        if i > 0 { assert t[i] == s[i - 1]; }
      }
    }
  }

  lemma DistinctSnoc(s: seq<Curve>, c: Curve, p: Curve -> string)
    requires DistinctBy(s, p) && p(c) !in Image(s, p)
    ensures DistinctBy(s + [c], p)
  {
    var t := s + [c];
    forall i, j | 0 <= i < j < |t| ensures p(t[i]) != p(t[j]) {
      assert t[i] == s[i];
      if j < |s| { assert t[j] == s[j]; }
    }
  }

  /** A list whose projections are distinct has as many projections as entries. */
  lemma {:induction false} DistinctImageSize(s: seq<Curve>, p: Curve -> string)
    requires DistinctBy(s, p)
    ensures |Image(s, p)| == |s|
  {
    if s != [] {
      assert s == [s[0]] + s[1..];
      DistinctCons(s[0], s[1..], p);
      ImageCons(s[0], s[1..], p);
      DistinctImageSize(s[1..], p);
    }
  }

  // ---------------------------------------------------------------------------
  // The invariant between the list and the palette
  // ---------------------------------------------------------------------------

  /** An entry as add_selected_topic_and_field builds it: a palette key with its own colour. */
  predicate WellFormed(c: Curve)
  {
    && c.topicAndField == Combined(c.topic, c.field)
    && exists k :: 0 <= k < PaletteSize && c.colorKey == PaletteKeys[k] && c.color == PaletteColors[k]
  }

  /** The palette has exactly the ten keys, entries use distinct palette keys, and a
      colour is occupied exactly when some entry uses it. */
  predicate Consistent(list: seq<Curve>, occ: map<string, bool>)
  {
    && occ.Keys == PaletteKeySet
    && (forall i :: 0 <= i < |list| ==> WellFormed(list[i]))
    && DistinctBy(list, KeyOf)
    && (forall k :: k in occ ==> (occ[k] <==> k in Image(list, KeyOf)))
  }

  /** Some entry's stored combined name is `name` (what `contains` scans for). */
  predicate HasName(list: seq<Curve>, name: string)
  {
    exists i :: 0 <= i < |list| && list[i].topicAndField == name
  }

  /** The number of occupied colours equals the number of entries. */
  lemma {:induction false} OccupiedCountIsLength(list: seq<Curve>, occ: map<string, bool>)
    requires Consistent(list, occ)
    ensures |OccupiedSet(occ)| == |list|
  {
    forall k | k in Image(list, KeyOf) ensures k in OccupiedSet(occ) {
      var i :| 0 <= i < |list| && KeyOf(list[i]) == k;
      assert WellFormed(list[i]);
      var j :| 0 <= j < PaletteSize && list[i].colorKey == PaletteKeys[j] && list[i].color == PaletteColors[j];
      assert k in PaletteKeySet;
    }
    assert OccupiedSet(occ) == Image(list, KeyOf);
    DistinctImageSize(list, KeyOf);
  }

  /** The palette is exhausted exactly when ten entries are plotted. */
  lemma {:induction false} PaletteFullIffTenEntries(list: seq<Curve>, occ: map<string, bool>)
    requires Consistent(list, occ)
    ensures FirstFree(occ, 0).None? <==> |list| == PaletteSize
  {
    OccupiedCountIsLength(list, occ);
    PaletteKeySetSize();
    var used := OccupiedSet(occ);
    var free := PaletteKeySet - used;
    assert PaletteKeySet == used + free && used !! free;
    if FirstFree(occ, 0).None? {
      forall k | k in PaletteKeySet ensures k in used {
        var i :| 0 <= i < PaletteSize && PaletteKeys[i] == k;
      }
      assert free == {};
    } else {
      var i := FirstFree(occ, 0).value;
      assert PaletteKeys[i] in free;
    }
  }

  /** A sequence of distinct keys has as many elements as keys. */
  lemma {:induction false} DistinctKeysSize(s: seq<string>)
    requires forall i, j :: 0 <= i < j < |s| ==> s[i] != s[j]
    ensures |set i | 0 <= i < |s| :: s[i]| == |s|
  {
    if s != [] {
      var init := s[..|s| - 1];
      DistinctKeysSize(init);
      var small := set i | 0 <= i < |init| :: init[i];
      var whole := set i | 0 <= i < |s| :: s[i];
      forall x | x in whole ensures x in small + {s[|s| - 1]} {
        var i :| 0 <= i < |s| && s[i] == x;
        if i < |init| { assert init[i] == s[i]; }
      }
      forall x | x in small + {s[|s| - 1]} ensures x in whole {
        if x in small {
          var i :| 0 <= i < |init| && init[i] == x;
          assert s[i] == x;
        }
      }
      assert whole == small + {s[|s| - 1]};
      forall x | x in small ensures x != s[|s| - 1] {
        var i :| 0 <= i < |init| && init[i] == x;
        assert s[i] == x;
      }
    }
  }

  lemma PaletteKeySetSize()
    ensures |PaletteKeySet| == PaletteSize
  {
    PaletteKeysDistinct();
    DistinctKeysSize(PaletteKeys);
    assert PaletteKeySet == set i | 0 <= i < |PaletteKeys| :: PaletteKeys[i];
  }

  // ---------------------------------------------------------------------------
  // Removal while iterating
  // ---------------------------------------------------------------------------

  predicate Matches(c: Curve, topic: string, field: string)
  {
    c.topic == topic && c.field == field
  }

  /** The entries left by remove_selected_topic_and_field. The source pops from the
      list it is iterating over, so the entry right after each popped one is skipped. */
  function SweepRemove(s: seq<Curve>, topic: string, field: string): seq<Curve>
    decreases |s|
  {
    if s == [] then []
    else if Matches(s[0], topic, field) then
      (if |s| == 1 then [] else [s[1]] + SweepRemove(s[2..], topic, field))
    else [s[0]] + SweepRemove(s[1..], topic, field)
  }

  /** The entries that the same sweep pops, whose colours it frees. */
  function SweepPopped(s: seq<Curve>, topic: string, field: string): seq<Curve>
    decreases |s|
  {
    if s == [] then []
    else if Matches(s[0], topic, field) then
      [s[0]] + (if |s| == 1 then [] else SweepPopped(s[2..], topic, field))
    else SweepPopped(s[1..], topic, field)
  }

  /** The palette after the flags of `keys` are cleared. */
  function Freed(occ: map<string, bool>, keys: set<string>): map<string, bool>
  {
    map k | k in occ.Keys + keys :: if k in keys then false else occ[k]
  }

  /** Every entry without a match, in the original order (what removal is meant to do). */
  function Filter(s: seq<Curve>, topic: string, field: string): (r: seq<Curve>)
    ensures forall i :: 0 <= i < |r| ==> !Matches(r[i], topic, field)
    decreases |s|
  {
    if s == [] then []
    else if Matches(s[0], topic, field) then Filter(s[1..], topic, field)
    else [s[0]] + Filter(s[1..], topic, field)
  }

  predicate AtMostOneMatch(s: seq<Curve>, topic: string, field: string)
  {
    forall i, j :: 0 <= i < j < |s| && Matches(s[i], topic, field) ==> !Matches(s[j], topic, field)
  }

  predicate NoMatch(s: seq<Curve>, topic: string, field: string)
  {
    forall i :: 0 <= i < |s| ==> !Matches(s[i], topic, field)
  }

  lemma {:induction false} SweepWithoutMatch(s: seq<Curve>, topic: string, field: string)
    requires NoMatch(s, topic, field)
    ensures SweepRemove(s, topic, field) == s && SweepPopped(s, topic, field) == []
    ensures Filter(s, topic, field) == s
    decreases |s|
  {
    if s != [] {
      assert !Matches(s[0], topic, field);
      assert NoMatch(s[1..], topic, field) by {
        forall i | 0 <= i < |s| - 1 ensures !Matches(s[1..][i], topic, field) {
          assert s[1..][i] == s[i + 1];
        }
      }
      SweepWithoutMatch(s[1..], topic, field);
      assert s == [s[0]] + s[1..];
    }
  }

  /** With at most one match the sweep removes exactly the matching entries and keeps
      the others in order; with no match it changes nothing. */
  lemma {:induction false} SweepIsExactWhenUnique(s: seq<Curve>, topic: string, field: string)
    requires AtMostOneMatch(s, topic, field)
    ensures SweepRemove(s, topic, field) == Filter(s, topic, field)
    ensures |SweepPopped(s, topic, field)| <= 1
    decreases |s|
  {
    if s != [] {
      if Matches(s[0], topic, field) {
        assert NoMatch(s[1..], topic, field) by {
          forall i | 0 <= i < |s| - 1 ensures !Matches(s[1..][i], topic, field) {
            assert s[1..][i] == s[i + 1];
          }
        }
        SweepWithoutMatch(s[1..], topic, field);
        if |s| > 1 {
          assert NoMatch(s[2..], topic, field) by {
            forall i | 0 <= i < |s| - 2 ensures !Matches(s[2..][i], topic, field) {
              assert s[2..][i] == s[i + 2];
            }
          }
          SweepWithoutMatch(s[2..], topic, field);
          assert s[1..] == [s[1]] + s[2..];
          assert s[1..][1..] == s[2..];
        }
      } else {
        assert AtMostOneMatch(s[1..], topic, field) by {
          forall i, j | 0 <= i < j < |s| - 1 && Matches(s[1..][i], topic, field)
            ensures !Matches(s[1..][j], topic, field)
          {
            assert s[1..][i] == s[i + 1] && s[1..][j] == s[j + 1];
          }
        }
        SweepIsExactWhenUnique(s[1..], topic, field);
      }
    }
  }

  /** Two adjacent entries for the same pair: the sweep removes only the first. */
  lemma SweepSkipsAdjacentDuplicate(c: Curve, topic: string, field: string)
    requires Matches(c, topic, field)
    ensures SweepRemove([c, c], topic, field) == [c]
    ensures SweepPopped([c, c], topic, field) == [c]
  {
    assert [c, c][2..] == [];
  }

  /** Distinct combined names (what callers keep by checking `contains` before adding)
      leave at most one entry per pair. */
  lemma UniqueNamesAtMostOneMatch(list: seq<Curve>, occ: map<string, bool>, topic: string, field: string)
    requires Consistent(list, occ) && DistinctBy(list, NameOf)
    ensures AtMostOneMatch(list, topic, field)
  {
    forall i, j | 0 <= i < j < |list| && Matches(list[i], topic, field)
      ensures !Matches(list[j], topic, field)
    {
      assert WellFormed(list[i]) && WellFormed(list[j]);
      assert NameOf(list[i]) != NameOf(list[j]);
    }
  }

  /** Every entry the sweep keeps comes from the original list. */
  lemma {:induction false} SweepKeepsEntries(s: seq<Curve>, topic: string, field: string)
    ensures forall x :: x in SweepRemove(s, topic, field) ==> x in s
    decreases |s|
  {
    if s != [] {
      if Matches(s[0], topic, field) {
        if |s| > 1 {
          SweepKeepsEntries(s[2..], topic, field);
          assert forall x :: x in s[2..] ==> x in s;
        }
      } else {
        SweepKeepsEntries(s[1..], topic, field);
        assert forall x :: x in s[1..] ==> x in s;
      }
    }
  }

  /** The projections of the kept and the popped entries together are those of the list. */
  lemma {:induction false} SweepCoversImage(s: seq<Curve>, topic: string, field: string, p: Curve -> string)
    ensures Image(SweepRemove(s, topic, field), p) + Image(SweepPopped(s, topic, field), p) == Image(s, p)
    decreases |s|
  {
    if s == [] {
    } else if Matches(s[0], topic, field) && |s| == 1 {
      ImageCons(s[0], [], p);
      assert s == [s[0]] + [];
    } else if Matches(s[0], topic, field) {
      var r := s[2..];
      SweepCoversImage(r, topic, field, p);
      ImageCons(s[1], SweepRemove(r, topic, field), p);
      ImageCons(s[0], SweepPopped(r, topic, field), p);
      assert s[1..] == [s[1]] + r;
      assert s == [s[0]] + s[1..];
      ImageCons(s[1], r, p);
      ImageCons(s[0], s[1..], p);
    } else {
      var r := s[1..];
      SweepCoversImage(r, topic, field, p);
      ImageCons(s[0], SweepRemove(r, topic, field), p);
      assert s == [s[0]] + r;
      ImageCons(s[0], r, p);
    }
  }

  /** On a list with distinct projections, the kept entries stay distinct and share
      no projection with a popped one. */
  lemma {:induction false} SweepSeparates(s: seq<Curve>, topic: string, field: string, p: Curve -> string)
    requires DistinctBy(s, p)
    ensures DistinctBy(SweepRemove(s, topic, field), p)
    ensures Image(SweepRemove(s, topic, field), p) !! Image(SweepPopped(s, topic, field), p)
    decreases |s|
  {
    if s == [] {
    } else if Matches(s[0], topic, field) && |s| == 1 {
    } else if Matches(s[0], topic, field) {
      var r := s[2..];
      assert s[1..] == [s[1]] + r;
      assert s == [s[0]] + s[1..];
      DistinctCons(s[0], s[1..], p);
      DistinctCons(s[1], r, p);
      SweepSeparates(r, topic, field, p);
      SweepCoversImage(r, topic, field, p);
      ImageCons(s[1], r, p);
      var kr, pr := SweepRemove(r, topic, field), SweepPopped(r, topic, field);
      DistinctCons(s[1], kr, p);
      ImageCons(s[1], kr, p);
      ImageCons(s[0], pr, p);
    } else {
      var r := s[1..];
      assert s == [s[0]] + r;
      DistinctCons(s[0], r, p);
      SweepSeparates(r, topic, field, p);
      SweepCoversImage(r, topic, field, p);
      var kr, pr := SweepRemove(r, topic, field), SweepPopped(r, topic, field);
      DistinctCons(s[0], kr, p);
      ImageCons(s[0], kr, p);
    }
  }

  /** Removal by the sweep, with the popped entries' colours freed, keeps the invariant
      and keeps combined names distinct when they were. */
  lemma {:induction false} SweepKeepsConsistent(s: seq<Curve>, occ: map<string, bool>, topic: string, field: string)
    requires Consistent(s, occ)
    ensures Consistent(SweepRemove(s, topic, field), Freed(occ, Image(SweepPopped(s, topic, field), KeyOf)))
    ensures DistinctBy(s, NameOf) ==> DistinctBy(SweepRemove(s, topic, field), NameOf)
  {
    var kept := SweepRemove(s, topic, field);
    var freed := Image(SweepPopped(s, topic, field), KeyOf);
    var occ' := Freed(occ, freed);
    SweepKeepsEntries(s, topic, field);
    SweepCoversImage(s, topic, field, KeyOf);
    SweepSeparates(s, topic, field, KeyOf);
    if DistinctBy(s, NameOf) { SweepSeparates(s, topic, field, NameOf); }
    forall k | k in freed ensures k in occ {
      assert k in Image(s, KeyOf);
    }
    assert occ'.Keys == PaletteKeySet;
    forall i | 0 <= i < |kept| ensures WellFormed(kept[i]) {
      assert kept[i] in s;
    }
  }

  /** The first free colour is the one the in-order scan stops at. */
  lemma FirstFreeAt(occ: map<string, bool>, i: nat)
    requires PaletteKeySet <= occ.Keys && i < PaletteSize && !occ[PaletteKeys[i]]
    requires forall j :: 0 <= j < i ==> occ[PaletteKeys[j]]
    ensures FirstFree(occ, 0) == Some(i)
  {
  }

  /** Appending an entry for the first free colour and marking that colour occupied
      keeps the invariant; names stay distinct when the new one was absent. */
  lemma AppendKeepsConsistent(s: seq<Curve>, occ: map<string, bool>, topic: string, field: string)
    requires Consistent(s, occ) && FirstFree(occ, 0).Some?
    ensures var k := FirstFree(occ, 0).value;
      var s' := s + [NewCurve(topic, field, PaletteKeys[k], PaletteColors[k])];
      && Consistent(s', occ[PaletteKeys[k] := true])
      && (DistinctBy(s, NameOf) && !HasName(s, Combined(topic, field)) ==> DistinctBy(s', NameOf))
  {
    var k := FirstFree(occ, 0).value;
    var key := PaletteKeys[k];
    var c := NewCurve(topic, field, key, PaletteColors[k]);
    var s' := s + [c];
    var occ' := occ[key := true];
    assert key in PaletteKeySet;
    assert occ'.Keys == PaletteKeySet;
    assert key !in Image(s, KeyOf);
    ImageSnoc(s, c, KeyOf);
    DistinctSnoc(s, c, KeyOf);
    assert WellFormed(c);
    forall j | 0 <= j < |s'| ensures WellFormed(s'[j]) {
      if j < |s| { assert s'[j] == s[j]; }
    }
    forall x | x in occ' ensures occ'[x] <==> x in Image(s', KeyOf) {
      if x != key { assert occ'[x] == occ[x]; }
    }
    if DistinctBy(s, NameOf) && !HasName(s, Combined(topic, field)) {
      assert c.topicAndField !in Image(s, NameOf);
      DistinctSnoc(s, c, NameOf);
    }
  }

  /** Adding an unselected pair and removing it again restores the list and the palette. */
  lemma {:induction false} AddThenRemove(s: seq<Curve>, occ: map<string, bool>, topic: string, field: string)
    requires occ.Keys == PaletteKeySet && FirstFree(occ, 0).Some?
    requires NoMatch(s, topic, field)
    ensures var k := FirstFree(occ, 0).value;
      var c := NewCurve(topic, field, PaletteKeys[k], PaletteColors[k]);
      && SweepRemove(s + [c], topic, field) == s
      && Freed(occ[PaletteKeys[k] := true], Image(SweepPopped(s + [c], topic, field), KeyOf)) == occ
  {
    var k := FirstFree(occ, 0).value;
    var c := NewCurve(topic, field, PaletteKeys[k], PaletteColors[k]);
    var key := PaletteKeys[k];
    assert Matches(c, topic, field);
    SweepAppendMatch(s, c, topic, field);
    ImageSingle(c, KeyOf);
    assert key in PaletteKeySet;
    FreedRestores(occ, key);
  }

  lemma ImageSingle(c: Curve, p: Curve -> string)
    ensures Image([c], p) == {p(c)}
  {
    assert [c][0] == c;
  }

  /** Clearing a flag that was just set gives back the palette before. */
  lemma FreedRestores(occ: map<string, bool>, key: string)
    requires key in occ && !occ[key]
    ensures Freed(occ[key := true], {key}) == occ
  {
    var occ' := Freed(occ[key := true], {key});
    assert occ'.Keys == occ.Keys;
    forall x | x in occ ensures occ'[x] == occ[x] {
    }
  }

  lemma {:induction false} SweepAppendMatch(s: seq<Curve>, c: Curve, topic: string, field: string)
    requires NoMatch(s, topic, field) && Matches(c, topic, field)
    ensures SweepRemove(s + [c], topic, field) == s
    ensures SweepPopped(s + [c], topic, field) == [c]
    decreases |s|
  {
    if s == [] {
      assert s + [c] == [c];
    } else {
      assert (s + [c])[0] == s[0];
      assert (s + [c])[1..] == s[1..] + [c];
      assert NoMatch(s[1..], topic, field) by {
        forall i | 0 <= i < |s| - 1 ensures !Matches(s[1..][i], topic, field) {
          assert s[1..][i] == s[i + 1];
        }
      }
      SweepAppendMatch(s[1..], c, topic, field);
      assert s == [s[0]] + s[1..];
    }
  }

  /** `contains` looks at combined names, removal at pairs. Without separators inside
      any name the two agree. */
  lemma ContainsIffPairPresent(list: seq<Curve>, topic: string, field: string)
    requires forall i :: 0 <= i < |list| ==> WellFormed(list[i])
    requires forall i :: 0 <= i < |list| ==> !HasSep(list[i].topic) && !HasSep(list[i].field)
    requires !HasSep(topic) && !HasSep(field)
    ensures HasName(list, Combined(topic, field)) <==> !NoMatch(list, topic, field)
  {
    if HasName(list, Combined(topic, field)) {
      var i :| 0 <= i < |list| && list[i].topicAndField == Combined(topic, field);
      assert WellFormed(list[i]);
      CombinedInjective(list[i].topic, list[i].field, topic, field);
      assert Matches(list[i], topic, field);
    }
  }

  /** An entry for ("a->b", "c") makes `contains("a", "b->c")` true while removing
      ("a", "b->c") finds nothing: clicking that field item can neither add nor remove it. */
  lemma ContainsWithoutPair(key: string, color: Rgb)
    ensures var c := NewCurve("a->b", "c", key, color);
      HasName([c], Combined("a", "b->c")) && SweepRemove([c], "a", "b->c") == [c]
  {
    var c := NewCurve("a->b", "c", key, color);
    assert [c][0] == c;
    assert !Matches(c, "a", "b->c");
    assert [c][1..] == [];
  }

  // ---------------------------------------------------------------------------
  // The backend object
  // ---------------------------------------------------------------------------

  /** Why add_selected_topic_and_field raises: with no free colour the loop never
      binds `color_key`, and the append reads it. */
  datatype AddError = PaletteFull

  /** GUIBackend: the selection, the palette and the display settings it holds. */
  class Backend {
    /** curve_list */
    var curveList: seq<Curve>
    /** the occupied flags of color_dict, by colour key; the key order is PaletteKeys */
    var occupied: map<string, bool>
    var symbol: Option<string>
    var linewidth: int
    var showLegend: bool
    var autoRange: bool
    var showTitle: bool
    var showTransitionLines: bool
    var showRoi: bool
    var rescaleCurves: bool
    var secondaryGraphMode: string
    /** read and toggled by the explorer; GUIBackend.__init__ never sets these two */
    var showMarkerLine: bool
    var showSecondaryGraph: bool

    ghost predicate Valid()
      reads this`curveList, this`occupied
    {
      Consistent(curveList, occupied)
    }

    /** No two entries carry the same combined name. */
    ghost predicate NoDuplicates()
      reads this`curveList
    {
      DistinctBy(curveList, NameOf)
    }

    /** GUIBackend.__init__ */
    constructor ()
      ensures Valid() && NoDuplicates()
      ensures curveList == [] && occupied == AllFree()
      ensures symbol == None && linewidth == 1 && !showLegend && autoRange && !showTitle
      ensures !showTransitionLines && !showRoi && !rescaleCurves && secondaryGraphMode == "2D"
      ensures !showMarkerLine && !showSecondaryGraph
    {
      curveList := [];
      occupied := AllFree();
      symbol := None;
      linewidth := 1;
      showLegend := false;
      autoRange := true;
      showTitle := false;
      showTransitionLines := false;
      showRoi := false;
      rescaleCurves := false;
      secondaryGraphMode := "2D";
      showMarkerLine := false;
      showSecondaryGraph := false;
    }

    /** contains: a linear scan for the combined name. */
    method Contains(topic: string, field: string) returns (found: bool)
      ensures found <==> HasName(curveList, Combined(topic, field))
    {
      var name := Combined(topic, field);
      var i := 0;
      while i < |curveList|
        invariant 0 <= i <= |curveList|
        invariant forall j :: 0 <= j < i ==> curveList[j].topicAndField != name
      {
        if curveList[i].topicAndField == name {
          return true;
        }
        i := i + 1;
      }
      return false;
    }

    /** add_selected_topic_and_field: takes the first free colour in palette order,
        marks it occupied and appends one entry; raises when every colour is taken. */
    method Add(topic: string, field: string) returns (r: Result<string, AddError>)
      requires Valid()
      modifies this`curveList, this`occupied
      ensures Valid()
      ensures r.Err? <==> FirstFree(old(occupied), 0).None?
      ensures r.Err? ==> curveList == old(curveList) && occupied == old(occupied)
      ensures r.Ok? ==>
        var k := FirstFree(old(occupied), 0).value;
        && r.value == PaletteKeys[k]
        && occupied == old(occupied)[PaletteKeys[k] := true]
        && curveList == old(curveList) + [NewCurve(topic, field, PaletteKeys[k], PaletteColors[k])]
      ensures old(NoDuplicates()) && !old(HasName(curveList, Combined(topic, field))) ==> NoDuplicates()
    {
      var color: Option<(string, Rgb)> := None;
      var i := 0;
      while i < PaletteSize
        invariant 0 <= i <= PaletteSize
        invariant curveList == old(curveList) && occupied == old(occupied) && color.None?
        invariant forall j :: 0 <= j < i ==> occupied[PaletteKeys[j]]
      {
        assert PaletteKeys[i] in PaletteKeySet;
        if !occupied[PaletteKeys[i]] {
          FirstFreeAt(occupied, i);
          occupied := occupied[PaletteKeys[i] := true];
          color := Some((PaletteKeys[i], PaletteColors[i]));
          break;
        }
        i := i + 1;
      }
      if color.None? {
        return Err(PaletteFull);
      }
      var (key, rgb) := color.value;
      var c := NewCurve(topic, field, key, rgb);
      AppendKeepsConsistent(curveList, old(occupied), topic, field);
      curveList := curveList + [c];
      r := Ok(key);
    }

    /** remove_selected_topic_and_field: pops every visited match while iterating and
        frees its colour; the manual index stays in step with the iteration. */
    method Remove(topic: string, field: string)
      requires Valid()
      modifies this`curveList, this`occupied
      ensures Valid()
      ensures curveList == SweepRemove(old(curveList), topic, field)
      ensures occupied == Freed(old(occupied), Image(SweepPopped(old(curveList), topic, field), KeyOf))
      ensures old(NoDuplicates()) ==> NoDuplicates()
    {
      ghost var s0 := curveList;
      var index := 0;
      ghost var freed: set<string> := {};
      while index < |curveList|
        invariant 0 <= index <= |curveList| + 1
        invariant Done(curveList, index) + SweepRemove(Rest(curveList, index), topic, field) == SweepRemove(s0, topic, field)
        invariant freed + Image(SweepPopped(Rest(curveList, index), topic, field), KeyOf)
               == Image(SweepPopped(s0, topic, field), KeyOf)
        invariant occupied == Freed(old(occupied), freed)
        decreases |curveList| + 1 - index
      {
        var elem := curveList[index];
        if elem.topic == topic && elem.field == field {
          SweepStepPop(curveList, index, topic, field);
          FreedAdd(old(occupied), freed, elem.colorKey);
          curveList := curveList[..index] + curveList[index + 1..];
          occupied := occupied[elem.colorKey := false];
          freed := freed + {elem.colorKey};
        } else {
          SweepStepKeep(curveList, index, topic, field);
        }
        index := index + 1;
      }
      SweepFinished(curveList, index, s0, freed, topic, field);
      SweepKeepsConsistent(s0, old(occupied), topic, field);
    }

    /** clear_curve_list: empties the list, then clears every flag in palette order. */
    method Clear()
      requires Valid()
      modifies this`curveList, this`occupied
      ensures Valid() && NoDuplicates()
      ensures curveList == [] && occupied == AllFree()
    {
      curveList := [];
      var i := 0;
      while i < PaletteSize
        invariant 0 <= i <= PaletteSize
        invariant curveList == []
        invariant occupied.Keys == PaletteKeySet
        invariant forall j :: 0 <= j < i ==> !occupied[PaletteKeys[j]]
      {
        assert PaletteKeys[i] in PaletteKeySet;
        occupied := occupied[PaletteKeys[i] := false];
        i := i + 1;
      }
      forall k | k in PaletteKeySet ensures !occupied[k] {
        var j :| 0 <= j < PaletteSize && PaletteKeys[j] == k;
      }
    }
  }

  /** One visit of the removal loop that pops the current entry. */
  lemma SweepStepPop(l: seq<Curve>, i: nat, topic: string, field: string)
    requires i < |l| && Matches(l[i], topic, field)
    ensures var l' := l[..i] + l[i + 1..];
      && Done(l', i + 1) + SweepRemove(Rest(l', i + 1), topic, field) == Done(l, i) + SweepRemove(Rest(l, i), topic, field)
      && Image(SweepPopped(Rest(l, i), topic, field), KeyOf) == {l[i].colorKey} + Image(SweepPopped(Rest(l', i + 1), topic, field), KeyOf)
  {
    var l' := l[..i] + l[i + 1..];
    var rest := l[i..];
    assert rest[0] == l[i];
    if i + 1 < |l| {
      assert rest[1] == l[i + 1] && rest[2..] == l[i + 2..];
      assert SweepRemove(rest, topic, field) == [l[i + 1]] + SweepRemove(l[i + 2..], topic, field);
      assert SweepPopped(rest, topic, field) == [l[i]] + SweepPopped(l[i + 2..], topic, field);
      assert l'[..i + 1] == l[..i] + [l[i + 1]];
      assert l'[i + 1..] == l[i + 2..];
      ImageCons(l[i], SweepPopped(l[i + 2..], topic, field), KeyOf);
    } else {
      assert l' == l[..i];
      assert SweepRemove(rest, topic, field) == [];
      assert SweepPopped(rest, topic, field) == [l[i]];
      ImageSingle(l[i], KeyOf);
      assert Image([], KeyOf) == {};
    }
  }

  /** One visit of the removal loop that keeps the current entry. */
  lemma SweepStepKeep(l: seq<Curve>, i: nat, topic: string, field: string)
    requires i < |l| && !Matches(l[i], topic, field)
    ensures Done(l, i + 1) + SweepRemove(Rest(l, i + 1), topic, field) == Done(l, i) + SweepRemove(Rest(l, i), topic, field)
    ensures SweepPopped(Rest(l, i + 1), topic, field) == SweepPopped(Rest(l, i), topic, field)
  {
    var rest := l[i..];
    assert rest[0] == l[i] && rest[1..] == l[i + 1..];
    assert SweepRemove(rest, topic, field) == [l[i]] + SweepRemove(l[i + 1..], topic, field);
    assert SweepPopped(rest, topic, field) == SweepPopped(l[i + 1..], topic, field);
    assert l[..i + 1] == l[..i] + [l[i]];
  }

  /** Once the counter has passed the end, the loop's invariants give the sweep's result. */
  lemma SweepFinished(l: seq<Curve>, i: nat, s0: seq<Curve>, freed: set<string>, topic: string, field: string)
    requires i >= |l|
    requires Done(l, i) + SweepRemove(Rest(l, i), topic, field) == SweepRemove(s0, topic, field)
    requires freed + Image(SweepPopped(Rest(l, i), topic, field), KeyOf) == Image(SweepPopped(s0, topic, field), KeyOf)
    ensures l == SweepRemove(s0, topic, field)
    ensures freed == Image(SweepPopped(s0, topic, field), KeyOf)
  {
    assert Done(l, i) == l && Rest(l, i) == [];
    assert SweepPopped([], topic, field) == [];
    assert Image([], KeyOf) == {};
  }

  lemma FreedAdd(occ: map<string, bool>, keys: set<string>, key: string)
    ensures Freed(occ, keys)[key := false] == Freed(occ, keys + {key})
  {
  }

  /** The part of the list the removal loop has passed (the whole list once the
      iteration counter has run past its end). */
  function Done(l: seq<Curve>, i: nat): seq<Curve>
  {
    if i <= |l| then l[..i] else l
  }

  /** The part of the list the removal loop has still to visit. */
  function Rest(l: seq<Curve>, i: nat): seq<Curve>
  {
    if i <= |l| then l[i..] else []
  }
}
