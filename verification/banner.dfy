/** The properties in a CNXN banner, and the feature list that selects protocol variants. */
module Banner {
  import opened Bytes
  import opened Results

  /** Whether `key` occurs in `s` at position `i`. */
  predicate OccursAt(s: string, key: string, i: nat)
  {
    i + |key| <= |s| && s[i..i + |key|] == key
  }

  ghost predicate Contains(s: string, key: string) { exists i: nat :: OccursAt(s, key, i) }

  /** `std::string::find`: the first position from `from` on at which `key` occurs. */
  function Find(s: string, key: string, from: nat): (r: Option<nat>)
    ensures r.Some? ==> from <= r.value && OccursAt(s, key, r.value)
    ensures r.Some? ==> forall i: nat :: from <= i < r.value ==> !OccursAt(s, key, i)
    ensures r.None? ==> forall i: nat :: from <= i ==> !OccursAt(s, key, i)
    decreases |s| - from
  {
    if from + |key| > |s| then None
    else if OccursAt(s, key, from) then Some(from)
    else Find(s, key, from + 1)
  }

  /** `std::string::find` of a character from `from` on, with the length of the string for "not found". */
  function IndexOf(s: string, c: char, from: nat): (r: nat)
    requires from <= |s|
    ensures from <= r <= |s| && (r < |s| ==> s[r] == c)
    ensures forall i :: from <= i < r ==> s[i] != c
    decreases |s| - from
  {
    if from == |s| || s[from] == c then from else IndexOf(s, c, from + 1)
  }

  /** The value of `key`: what follows its first occurrence anywhere in the banner, up to the next semicolon. */
  function ParseProperty(banner: string, key: string): string
  {
    match Find(banner, key, 0)
    case None => ""
    case Some(i) => var value := banner[i + |key|..]; value[..IndexOf(value, ';', 0)]
  }

  /** The non-empty pieces of `list` between commas, from `start` on. */
  function SplitFrom(list: string, start: nat): seq<string>
    requires start <= |list|
    decreases |list| - start
  {
    var stop := IndexOf(list, ',', start);
    if start == stop then if stop == |list| then [] else SplitFrom(list, stop + 1)
    else if stop == |list| then [list[start..]]
    else [list[start..stop]] + SplitFrom(list, stop + 1)
  }

  const FEATURES := "features="

  function FeaturesOf(banner: string): seq<string> { SplitFrom(ParseProperty(banner, FEATURES), 0) }

  method ParseFeatures(banner: string) returns (features: seq<string>)
    ensures features == FeaturesOf(banner)
  {
    features := SplitFeatures(ParseProperty(banner, FEATURES));
  }

  /** The loop of `parse_features`. */
  method SplitFeatures(list: string) returns (features: seq<string>)
    ensures features == SplitFrom(list, 0)
  {
    features := [];
    var start := 0;
    ghost var all := SplitFrom(list, 0);
    assert [] + all == all;
    while start <= |list|
      invariant start <= |list|
      invariant all == features + SplitFrom(list, start)
      decreases |list| - start
    {
      var stop := IndexOf(list, ',', start);
      ghost var found := if stop > start then features + [list[start..stop]] else features;
      SplitTurn(list, start, stop, features, found);
      if stop > start {
        features := features + [list[start..stop]];
      }
      assert features == found;
      if stop == |list| {
        break;
      }
      start := stop + 1;
    }
  }

  /** What one turn of the loop moves from the rest of the list to the features found. */
  lemma SplitTurn(list: string, start: nat, stop: nat, features: seq<string>, found: seq<string>)
    requires start <= |list| && stop == IndexOf(list, ',', start)
    requires found == if stop > start then features + [list[start..stop]] else features
    ensures features + SplitFrom(list, start) == if stop == |list| then found else found + SplitFrom(list, stop + 1)
  {
    assert list[start..|list|] == list[start..];
    if stop < |list| {
      Regroup(features, [list[start..stop]], SplitFrom(list, stop + 1));
    }
  }

  // ----- round trip

  predicate Plain(name: string) { name != "" && ',' !in name && ';' !in name }

  function Join(names: seq<string>): string
  {
    if names == [] then ""
    else if |names| == 1 then names[0]
    else names[0] + "," + Join(names[1..])
  }

  lemma SplitName(s: string, from: nat, name: string)
    requires Plain(name) && from + |name| <= |s| && s[from..from + |name|] == name
    requires from + |name| < |s| ==> s[from + |name|] == ','
    ensures SplitFrom(s, from)
         == if from + |name| < |s| then [name] + SplitFrom(s, from + |name| + 1) else [name]
  {
    forall i | from <= i < from + |name| ensures s[i] != ',' {
      assert s[i] == s[from..from + |name|][i - from];
    }
    assert IndexOf(s, ',', from) == from + |name|;
    assert s[from..|s|] == s[from..];
  }

  lemma JoinHead(s: string, from: nat, names: seq<string>)
    requires from <= |s| && s[from..] == Join(names) && names != []
    ensures var stop := from + |names[0]|;
            && stop <= |s| && s[from..stop] == names[0]
            && if |names| == 1 then stop == |s|
               else stop < |s| && s[stop] == ',' && s[stop + 1..] == Join(names[1..])
  {
    var stop := from + |names[0]|;
    assert s[from..stop] == s[from..][..|names[0]|] == names[0];
    if |names| > 1 {
      assert s[stop] == s[from..][|names[0]|];
      assert s[stop + 1..] == s[from..][|names[0]| + 1..];
    }
  }

  lemma HeadAndTail<T>(s: seq<T>)
    requires s != []
    ensures [s[0]] + s[1..] == s
  {
  }

  /** From `from` on, `s` is the names with a comma between each two. */
  ghost predicate Spells(s: string, from: nat, names: seq<string>)
    requires names != []
    decreases |names|
  {
    var stop := from + |names[0]|;
    && stop <= |s| && s[from..stop] == names[0]
    && if |names| == 1 then stop == |s| else stop < |s| && s[stop] == ',' && Spells(s, stop + 1, names[1..])
  }

  lemma {:induction false} JoinSpells(s: string, from: nat, names: seq<string>)
    requires from <= |s| && s[from..] == Join(names) && names != []
    ensures Spells(s, from, names)
    decreases |names|
  {
    JoinHead(s, from, names);
    if |names| > 1 {
      JoinSpells(s, from + |names[0]| + 1, names[1..]);
    }
  }

  /** Spelled names are split again. */
  lemma {:induction false} SplitSpelled(s: string, from: nat, names: seq<string>)
    requires names != [] && Spells(s, from, names)
    requires forall i :: 0 <= i < |names| ==> Plain(names[i])
    ensures SplitFrom(s, from) == names
    decreases |names|
  {
    SplitName(s, from, names[0]);
    if |names| > 1 {
      SplitSpelled(s, from + |names[0]| + 1, names[1..]);
      HeadAndTail(names);
    }
  }

  lemma SplitJoin(names: seq<string>)
    requires forall n <- names :: Plain(n)
    ensures SplitFrom(Join(names), 0) == names
  {
    if names != [] {
      assert Join(names)[0..] == Join(names);
      JoinSpells(Join(names), 0, names);
      SplitSpelled(Join(names), 0, names);
    }
  }

  lemma {:induction false} JoinIsOneProperty(names: seq<string>)
    requires forall n <- names :: Plain(n)
    ensures ';' !in Join(names)
  {
    if names != [] {
      assert Plain(names[0]);
      JoinIsOneProperty(names[1..]);
    }
  }

  /** `features=` cannot overlap itself, so the first occurrence is the one that is meant, unless the prefix has one. */
  lemma FindFeatures(prefix: string, rest: string)
    requires !Contains(prefix, FEATURES)
    ensures Find(prefix + FEATURES + rest, FEATURES, 0) == Some(|prefix|)
  {
    var s := prefix + FEATURES + rest;
    assert OccursAt(s, FEATURES, |prefix|) by {
      assert s[|prefix|..|prefix| + |FEATURES|] == FEATURES;
    }
    forall i: nat | i < |prefix| ensures !OccursAt(s, FEATURES, i) {
      if i + |FEATURES| <= |prefix| {
        assert s[i..i + |FEATURES|] == prefix[i..i + |FEATURES|];
        assert !OccursAt(prefix, FEATURES, i);
      } else if i + |FEATURES| <= |s| {
        var k := |prefix| - i;
        assert s[i..i + |FEATURES|][k] == s[|prefix|] == 'f';
        assert FEATURES[k] != 'f';
      }
    }
  }

  /**
   Banner round trip: the features of a banner are the names it was built from, whatever properties come before and
   after, provided no earlier text contains `features=`.
   */
  lemma FeaturesRoundTrip(prefix: string, names: seq<string>, rest: string)
    requires !Contains(prefix, FEATURES)
    requires forall n <- names :: Plain(n)
    requires rest == "" || rest[0] == ';'
    ensures FeaturesOf(prefix + FEATURES + (Join(names) + rest)) == names
  {
    var list := Join(names);
    var banner := prefix + FEATURES + (list + rest);
    FindFeatures(prefix, list + rest);
    assert banner[|prefix| + |FEATURES|..] == list + rest;
    JoinIsOneProperty(names);
    if rest == "" {
      assert list + rest == list;
      assert IndexOf(list, ';', 0) == |list|;
    } else {
      assert (list + rest)[..|list|] == list;
      assert forall i :: 0 <= i < |list| ==> (list + rest)[i] == list[i];
      assert IndexOf(list + rest, ';', 0) == |list|;
    }
    SplitJoin(names);
  }

  /** Whether the feature list behind `prefix` is always read back. */
  ghost predicate Faithful(prefix: string)
  {
    forall names: seq<string> | (forall n <- names :: Plain(n)) :: Reads(prefix, names)
  }

  ghost predicate Reads(prefix: string, names: seq<string>)
  {
    FeaturesOf(prefix + FEATURES + Join(names)) == names
  }

  lemma {:induction false} IndexOfConcat(s: string, x: string, c: char, from: nat)
    requires from <= |s|
    ensures IndexOf(s + x, c, from)
         == if IndexOf(s, c, from) < |s| then IndexOf(s, c, from) else |s| + IndexOf(x, c, 0)
    decreases |s| - from
  {
    var t := s + x;
    assert forall i :: 0 <= i < |s| ==> t[i] == s[i];
    assert forall i :: 0 <= i < |x| ==> t[|s| + i] == x[i];
    var r := if IndexOf(s, c, from) < |s| then IndexOf(s, c, from) else |s| + IndexOf(x, c, 0);
    assert r < |t| ==> t[r] == c;
    forall i | from <= i < r ensures t[i] != c {
      if i >= |s| {
        assert t[i] == x[i - |s|];
      }
    }
  }

  /** Where the value of the key starts that is found first. */
  function EarlierValue(prefix: string): string
    requires Find(prefix, FEATURES, 0).Some?
  {
    prefix[Find(prefix, FEATURES, 0).value + |FEATURES|..]
  }

  /** An earlier occurrence of the key is found first, whatever is behind it. */
  lemma PropertyBehindEarlierKey(prefix: string, x: string)
    requires Find(prefix, FEATURES, 0).Some?
    ensures var here := EarlierValue(prefix);
            ParseProperty(prefix + x, FEATURES) == (here + x)[..IndexOf(here + x, ';', 0)]
  {
    var s, first := prefix + x, Find(prefix, FEATURES, 0).value;
    forall i: nat | i <= first ensures OccursAt(s, FEATURES, i) == OccursAt(prefix, FEATURES, i) {
      assert s[i..i + |FEATURES|] == prefix[i..i + |FEATURES|];
    }
    assert Find(s, FEATURES, 0) == Some(first);
    assert s[first + |FEATURES|..] == prefix[first + |FEATURES|..] + x;
  }

  lemma {:induction false} SomePiece(s: string, from: nat)
    requires from < |s| && s[|s| - 1] != ','
    ensures SplitFrom(s, from) != []
    decreases |s| - from
  {
    var stop := IndexOf(s, ',', from);
    if from == stop {
      SomePiece(s, stop + 1);
    }
  }

  /**
   The key is matched anywhere in the banner, not only at the start of a property. The list is read back for all
   names if and only if nothing before it contains `features=`.
   */
  lemma FaithfulIffNoEarlierKey(prefix: string)
    ensures Faithful(prefix) <==> !Contains(prefix, FEATURES)
  {
    if !Contains(prefix, FEATURES) {
      forall names: seq<string> | (forall n <- names :: Plain(n)) ensures Reads(prefix, names) {
        FeaturesRoundTrip(prefix, names, "");
        assert Join(names) + "" == Join(names);
      }
    } else {
      EarlierKeyMisleads(prefix);
      assert forall n <- ["a"] :: Plain(n);
    }
  }

  lemma SameBehindSemicolon(prefix: string, x: string, y: string)
    requires Find(prefix, FEATURES, 0).Some?
    requires IndexOf(EarlierValue(prefix), ';', 0) < |EarlierValue(prefix)|
    ensures ParseProperty(prefix + x, FEATURES) == ParseProperty(prefix + y, FEATURES)
  {
    var here := EarlierValue(prefix);
    PropertyBehindEarlierKey(prefix, x);
    PropertyBehindEarlierKey(prefix, y);
    IndexOfConcat(here, x, ';', 0);
    IndexOfConcat(here, y, ';', 0);
    var stop := IndexOf(here, ';', 0);
    assert (here + x)[..stop] == here[..stop] == (here + y)[..stop];
  }

  lemma SomethingBehindKey(prefix: string)
    requires Find(prefix, FEATURES, 0).Some?
    requires IndexOf(EarlierValue(prefix), ';', 0) == |EarlierValue(prefix)|
    ensures FeaturesOf(prefix + FEATURES) != []
  {
    var here := EarlierValue(prefix);
    var all := here + FEATURES;
    PropertyBehindEarlierKey(prefix, FEATURES);
    IndexOfConcat(here, FEATURES, ';', 0);
    assert IndexOf(FEATURES, ';', 0) == |FEATURES|;
    assert all[..|all|] == all;
    SomePiece(all, 0);
  }

  /** With an earlier key, the empty list or the list of one name is misread. */
  lemma EarlierKeyMisleads(prefix: string)
    requires Contains(prefix, FEATURES)
    ensures !Reads(prefix, []) || !Reads(prefix, ["a"])
  {
    var x := FEATURES + Join(["a"]);
    assert prefix + FEATURES + Join([]) == prefix + FEATURES;
    assert prefix + FEATURES + Join(["a"]) == prefix + x;
    if IndexOf(EarlierValue(prefix), ';', 0) < |EarlierValue(prefix)| {
      SameBehindSemicolon(prefix, FEATURES, x);
    } else {
      SomethingBehindKey(prefix);
    }
  }
}
