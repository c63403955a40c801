/** The TOML reader of project configurations (desktop/src/projects/configuration/toml_reader.rs):
    every section of the file is a launch profile whose keys are either group tags or
    parameters, and the profiles are arranged into a cross product of groups, one level
    per group tag. The TOML text itself arrives already parsed. */
module TomlReader {
  import opened Wrappers
  import opened ProjectConfiguration

  /** A parsed TOML value. A float carries its decimal display form. */
  datatype TomlValue =
    | TomlString(s: string)
    | TomlInteger(i: int)
    | TomlFloat(display: string)
    | TomlBoolean(b: bool)
    | TomlDatetime
    | TomlArray
    | TomlTable

  datatype ReadError = UnsupportedValue(value: TomlValue)

  /** The keys and values of one section, in the order the section's map yields them. */
  type Section = seq<(string, TomlValue)>

  /** `LayoutSection`: the group tags, outermost first, and per tag an order of its values. */
  datatype LayoutSection = LayoutSection(groups: seq<string>, order: map<string, seq<string>>)

  /** `ConfigFile`: the sections in the order the file's map yields them. */
  datatype ConfigFile = ConfigFile(startup: Option<string>, layout: Option<LayoutSection>, launchProfiles: seq<(string, Section)>)

  // Values

  predicate IsDigit(c: char) {
    '0' <= c <= '9'
  }

  function DigitChar(d: nat): (c: char)
    requires d < 10
    ensures IsDigit(c) && c as int - '0' as int == d
  {
    ('0' as int + d) as char
  }

  /** The decimal digits of `n`, most significant first, without leading zeros. */
  function NatToString(n: nat): (s: string)
    ensures |s| >= 1 && (forall i :: 0 <= i < |s| ==> IsDigit(s[i]))
    ensures |s| > 1 ==> s[0] != '0'
    decreases n
  {
    if n < 10 then [DigitChar(n)] else NatToString(n / 10) + [DigitChar(n % 10)]
  }

  function ParseNat(s: string): int
    requires forall i :: 0 <= i < |s| ==> IsDigit(s[i])
    decreases |s|
  {
    if s == [] then 0 else ParseNat(s[..|s| - 1]) * 10 + (s[|s| - 1] as int - '0' as int)
  }

  /** `i64::to_string`: a minus sign for negative numbers, then the digits. */
  function IntToString(i: int): (s: string)
    ensures |s| >= 1 && forall k :: 0 <= k < |s| ==> IsDigit(s[k]) || (k == 0 && s[k] == '-')
  {
    if i < 0 then "-" + NatToString(-i) else NatToString(i)
  }

  function ParseInt(s: string): int
    requires forall k :: 0 <= k < |s| ==> IsDigit(s[k]) || (k == 0 && s[k] == '-')
  {
    if s != [] && s[0] == '-' then
      assert forall k :: 0 <= k < |s| - 1 ==> s[1..][k] == s[k + 1];
      -ParseNat(s[1..])
    else ParseNat(s)
  }

  lemma {:induction false} NatRoundTrip(n: nat)
    ensures ParseNat(NatToString(n)) == n
    decreases n
  {
    if n >= 10 {
      var s := NatToString(n);
      NatRoundTrip(n / 10);
      assert s[..|s| - 1] == NatToString(n / 10);
    }
  }

  /** Integers are written so that reading the text back gives the same integer. */
  lemma IntRoundTrip(i: int)
    ensures ParseInt(IntToString(i)) == i
  {
    if i < 0 {
      NatRoundTrip(-i);
      assert IntToString(i)[1..] == NatToString(-i);
    } else {
      NatRoundTrip(i);
    }
  }

  /** `toml_value_to_string`: strings, integers, floats and booleans convert; dates, arrays
      and tables are errors. */
  function ValueToString(v: TomlValue): (r: Result<string, ReadError>)
    ensures r.Err? <==> v.TomlDatetime? || v.TomlArray? || v.TomlTable?
    ensures r.Err? ==> r.error == UnsupportedValue(v)
    ensures v.TomlString? ==> r == Ok(v.s)
    ensures v.TomlInteger? ==> r == Ok(IntToString(v.i)) && ParseInt(r.value) == v.i
    ensures v.TomlBoolean? ==> r == Ok(if v.b then "true" else "false")
  {
    match v
    case TomlString(s) => Ok(s)
    case TomlInteger(i) => IntRoundTrip(i); Ok(IntToString(i))
    case TomlFloat(d) => Ok(d)
    case TomlBoolean(b) => Ok(if b then "true" else "false")
    case _ => Err(UnsupportedValue(v))
  }

  lemma ValueExamples()
    ensures ValueToString(TomlString("test")) == Ok("test")
    ensures ValueToString(TomlInteger(42)) == Ok("42")
    ensures ValueToString(TomlInteger(-7)) == Ok("-7")
    ensures ValueToString(TomlBoolean(true)) == Ok("true")
  {
    assert DigitChar(4) == '4' && DigitChar(2) == '2' && DigitChar(7) == '7';
    assert NatToString(42) == NatToString(4) + [DigitChar(2)] == "42";
    assert "-" + NatToString(7) == "-7";
  }

  // Launch profiles

  /** The tags and parameters of a section, in section order; the first value that does
      not convert is the error. */
  function Split(section: Section, groupTags: seq<string>): Result<(seq<ScopedTag>, seq<Parameter>), ReadError>
    decreases |section|
  {
    if section == [] then Ok(([], []))
    else match Split(section[..|section| - 1], groupTags)
      case Err(e) => Err(e)
      case Ok((tags, params)) =>
        var (key, value) := section[|section| - 1];
        match ValueToString(value)
        case Err(e) => Err(e)
        case Ok(s) =>
          if key in groupTags then Ok((tags + [ScopedTag(key, s)], params))
          else Ok((tags, params + [Parameter(key, s)]))
  }

  /** `build_launch_profile`. */
  function ProfileOf(name: string, section: Section, groupTags: seq<string>): Result<LaunchProfile, ReadError> {
    match Split(section, groupTags)
    case Err(e) => Err(e)
    case Ok((tags, params)) => Ok(LaunchProfile(name, params, tags))
  }

  /** `build_launch_profile`: the loop over the section. */
  method BuildLaunchProfile(name: string, section: Section, groupTags: seq<string>) returns (r: Result<LaunchProfile, ReadError>)
    ensures r == ProfileOf(name, section, groupTags)
  {
    var tags: seq<ScopedTag> := [];
    var params: seq<Parameter> := [];
    for i := 0 to |section|
      invariant Split(section[..i], groupTags) == Ok((tags, params))
    {
      var (key, value) := section[i];
      assert section[..i + 1][..i] == section[..i];
      var s := ValueToString(value);
      if s.Err? {
        PrefixErrorStays(section, groupTags, i + 1);
        return Err(s.error);
      }
      if key in groupTags {
        tags := tags + [ScopedTag(key, s.value)];
      } else {
        params := params + [Parameter(key, s.value)];
      }
    }
    assert section[..|section|] == section;
    r := Ok(LaunchProfile(name, params, tags));
  }

  /** An error in a prefix of the section is the error of the whole section. */
  lemma {:induction false} PrefixErrorStays(section: Section, groupTags: seq<string>, n: nat)
    requires n <= |section| && Split(section[..n], groupTags).Err?
    ensures Split(section, groupTags) == Split(section[..n], groupTags)
    decreases |section| - n
  {
    if n < |section| {
      assert section[..n + 1][..n] == section[..n];
      PrefixErrorStays(section, groupTags, n + 1);
    } else {
      assert section[..n] == section;
    }
  }

  /** A profile is built exactly when every value converts; then every key that is a group
      tag becomes a tag and every other key a parameter, each with its converted value,
      and nothing else is added. */
  lemma {:induction false} SplitProperties(section: Section, groupTags: seq<string>)
    ensures Split(section, groupTags).Ok? <==> forall i :: 0 <= i < |section| ==> ValueToString(section[i].1).Ok?
    ensures Split(section, groupTags).Ok? ==>
      var (tags, params) := Split(section, groupTags).value;
      |tags| + |params| == |section| &&
      (forall i :: 0 <= i < |section| && section[i].0 in groupTags ==>
        ScopedTag(section[i].0, ValueToString(section[i].1).value) in tags) &&
      (forall i :: 0 <= i < |section| && section[i].0 !in groupTags ==>
        Parameter(section[i].0, ValueToString(section[i].1).value) in params) &&
      (forall t :: t in tags ==> t.scope in groupTags) &&
      (forall p :: p in params ==> p.name !in groupTags)
    decreases |section|
  {
    if section != [] {
      var init := section[..|section| - 1];
      SplitProperties(init, groupTags);
      assert forall i :: 0 <= i < |init| ==> init[i] == section[i];
    }
  }

  lemma ProfileExample()
    ensures ProfileOf("host-1", [("command", TomlString("ssh host-1")), ("datacenter", TomlString("ffm")), ("type", TomlString("router"))],
      ["datacenter", "type"]) ==
      Ok(LaunchProfile("host-1", [Parameter("command", "ssh host-1")], [ScopedTag("datacenter", "ffm"), ScopedTag("type", "router")]))
  {
    var section := [("command", TomlString("ssh host-1")), ("datacenter", TomlString("ffm")), ("type", TomlString("router"))];
    var tags := ["datacenter", "type"];
    assert section[..1][..0] == [];
    var noParams: seq<Parameter> := [];
    var noTags: seq<ScopedTag> := [];
    assert noParams + [Parameter("command", "ssh host-1")] == [Parameter("command", "ssh host-1")];
    assert noTags + [ScopedTag("datacenter", "ffm")] == [ScopedTag("datacenter", "ffm")];
    assert section[..1][0] == ("command", TomlString("ssh host-1"));
    assert "command" !in tags && "datacenter" in tags && "type" in tags;
    assert Split(section[..1], tags) == Ok(([], [Parameter("command", "ssh host-1")]));
    assert section[..2][..1] == section[..1];
    assert Split(section[..2], tags) == Ok(([ScopedTag("datacenter", "ffm")], [Parameter("command", "ssh host-1")]));
    assert section[..|section| - 1] == section[..2];
    assert [ScopedTag("datacenter", "ffm")] + [ScopedTag("type", "router")] == [ScopedTag("datacenter", "ffm"), ScopedTag("type", "router")];
  }

  // Ordering values

  /** `String`'s order: lexicographic by character. */
  predicate StrLessEq(a: string, b: string)
    decreases |a|
  {
    a == [] || (b != [] && (a[0] < b[0] || (a[0] == b[0] && StrLessEq(a[1..], b[1..]))))
  }

  lemma {:induction false} StrTotal(a: string, b: string)
    ensures StrLessEq(a, b) || StrLessEq(b, a)
    decreases |a|
  {
    if a != [] && b != [] && a[0] == b[0] {
      StrTotal(a[1..], b[1..]);
    }
  }

  lemma {:induction false} StrTrans(a: string, b: string, c: string)
    requires StrLessEq(a, b) && StrLessEq(b, c)
    ensures StrLessEq(a, c)
    decreases |a|
  {
    if a != [] && a[0] == b[0] && b[0] == c[0] {
      StrTrans(a[1..], b[1..], c[1..]);
    }
  }

  predicate Sorted(s: seq<string>) {
    forall i, j :: 0 <= i < j < |s| ==> StrLessEq(s[i], s[j])
  }

  function Insert(x: string, s: seq<string>): (r: seq<string>)
    ensures multiset(r) == multiset(s) + multiset{x}
    decreases |s|
  {
    if s == [] then [x]
    else if StrLessEq(x, s[0]) then [x] + s
    else
      assert s == [s[0]] + s[1..];
      [s[0]] + Insert(x, s[1..])
  }

  lemma {:induction false} InsertSorted(x: string, s: seq<string>)
    requires Sorted(s)
    ensures Sorted(Insert(x, s))
    decreases |s|
  {
    if s != [] {
      if StrLessEq(x, s[0]) {
        var r := [x] + s;
        forall i, j | 0 <= i < j < |r|
          ensures StrLessEq(r[i], r[j])
        {
          if i == 0 && j > 1 {
            StrTrans(x, s[0], s[j - 1]);
          }
        }
      } else {
        InsertSorted(x, s[1..]);
        InsertAboveHead(x, s);
        var t := Insert(x, s[1..]);
        var r := [s[0]] + t;
        forall i, j | 0 <= i < j < |r|
          ensures StrLessEq(r[i], r[j])
        {
          if i == 0 {
            assert r[j] == t[j - 1];
          } else {
            assert r[i] == t[i - 1] && r[j] == t[j - 1];
          }
        }
      }
    }
  }

  /** Inserting a larger value after the head keeps every element above the head. */
  lemma InsertAboveHead(x: string, s: seq<string>)
    requires Sorted(s) && s != [] && !StrLessEq(x, s[0])
    ensures forall k :: 0 <= k < |Insert(x, s[1..])| ==> StrLessEq(s[0], Insert(x, s[1..])[k])
  {
    StrTotal(x, s[0]);
    var t := Insert(x, s[1..]);
    forall k | 0 <= k < |t|
      ensures StrLessEq(s[0], t[k])
    {
      assert t[k] in multiset(t);
      if t[k] != x {
        assert t[k] in multiset(s[1..]);
        var m :| 0 <= m < |s[1..]| && s[1..][m] == t[k];
        assert s[m + 1] == t[k];
      }
    }
  }

  /** `keys.sort()`: the values in increasing order, as a permutation. */
  function Sort(s: seq<string>): (r: seq<string>)
    ensures multiset(r) == multiset(s)
    ensures Sorted(r)
    decreases |s|
  {
    if s == [] then []
    else
      var t := Sort(s[1..]);
      InsertSorted(s[0], t);
      assert s == [s[0]] + s[1..];
      Insert(s[0], t)
  }

  // The groups of one level

  /** The value of the first tag in the scope (`tags.iter().find(..)`). */
  function FirstTag(tags: seq<ScopedTag>, scope: string): (r: Option<string>)
    ensures r.Some? <==> exists t :: t in tags && t.scope == scope
    ensures r.Some? ==> ScopedTag(scope, r.value) in tags
    decreases |tags|
  {
    if tags == [] then None
    else if tags[0].scope == scope then Some(tags[0].tag)
    else
      var r := FirstTag(tags[1..], scope);
      assert forall t :: t in tags[1..] ==> t in tags;
      assert forall t :: t in tags && t != tags[0] ==> t in tags[1..];
      r
  }

  function TagValue(app: LaunchProfile, scope: string): Option<string> {
    FirstTag(app.tags, scope)
  }

  /** The profiles whose value in the scope is `v`, in their order. */
  function Matching(apps: seq<LaunchProfile>, scope: string, v: string): (r: seq<LaunchProfile>)
    ensures forall a :: a in r <==> a in apps && TagValue(a, scope) == Some(v)
    decreases |apps|
  {
    if apps == [] then []
    else
      var init := apps[..|apps| - 1];
      var last := apps[|apps| - 1];
      assert apps == init + [last];
      Matching(init, scope, v) + (if TagValue(last, scope) == Some(v) then [last] else [])
  }

  lemma NoneMatching(apps: seq<LaunchProfile>, scope: string, v: string)
    requires forall a :: a in apps ==> TagValue(a, scope) != Some(v)
    ensures Matching(apps, scope, v) == []
  {
    if Matching(apps, scope, v) != [] {
      HeadIn(Matching(apps, scope, v));
      assert false;
    }
  }

  lemma HeadIn(s: seq<LaunchProfile>)
    requires s != []
    ensures s[0] in s
  {
  }

  /** `found_values`, as the loop over the profiles fills it. */
  function Found(apps: seq<LaunchProfile>, scope: string): map<string, seq<LaunchProfile>>
    decreases |apps|
  {
    if apps == [] then map[]
    else
      var m := Found(apps[..|apps| - 1], scope);
      match TagValue(apps[|apps| - 1], scope)
      case None => m
      case Some(v) => m[v := (if v in m then m[v] else []) + [apps[|apps| - 1]]]
  }

  /** The found values in the order they first appear; it fixes the order in which the
      source's map yields its remaining entries. */
  function FoundOrder(apps: seq<LaunchProfile>, scope: string): seq<string>
    decreases |apps|
  {
    if apps == [] then []
    else
      var o := FoundOrder(apps[..|apps| - 1], scope);
      match TagValue(apps[|apps| - 1], scope)
      case None => o
      case Some(v) => if v in o then o else o + [v]
  }

  predicate Distinct(s: seq<string>) {
    forall i, j :: 0 <= i < j < |s| ==> s[i] != s[j]
  }

  /** The found values are exactly the values of the profiles tagged in the scope, and the
      first-appearance order lists each of them once. */
  lemma {:induction false} FoundKeys(apps: seq<LaunchProfile>, scope: string)
    ensures forall v :: v in Found(apps, scope) <==> v in FoundOrder(apps, scope)
    ensures forall v :: v in Found(apps, scope) <==> exists a :: a in apps && TagValue(a, scope) == Some(v)
    ensures Distinct(FoundOrder(apps, scope))
    decreases |apps|
  {
    FoundOrderKeys(apps, scope);
    FoundValues(apps, scope);
  }

  lemma {:induction false} FoundOrderKeys(apps: seq<LaunchProfile>, scope: string)
    ensures forall v :: v in Found(apps, scope) <==> v in FoundOrder(apps, scope)
    ensures Distinct(FoundOrder(apps, scope))
    decreases |apps|
  {
    if apps != [] {
      FoundOrderKeys(apps[..|apps| - 1], scope);
    }
  }

  lemma {:induction false} FoundValues(apps: seq<LaunchProfile>, scope: string)
    ensures forall v :: v in Found(apps, scope) <==> exists a :: a in apps && TagValue(a, scope) == Some(v)
    decreases |apps|
  {
    if apps != [] {
      var init := apps[..|apps| - 1];
      var last := apps[|apps| - 1];
      FoundValues(init, scope);
      assert apps == init + [last];
      assert forall a :: a in apps <==> a in init || a == last;
    }
  }

  /** A profile's value in the scope is found. */
  lemma FoundHas(apps: seq<LaunchProfile>, scope: string, a: LaunchProfile)
    requires a in apps && TagValue(a, scope).Some?
    ensures TagValue(a, scope).value in Found(apps, scope)
  {
    FoundKeys(apps, scope);
  }

  /** Each found value holds the profiles with that value, in their order. */
  lemma {:induction false} FoundLists(apps: seq<LaunchProfile>, scope: string)
    ensures forall v :: v in Found(apps, scope) ==> Found(apps, scope)[v] == Matching(apps, scope, v)
    decreases |apps|
  {
    if apps != [] {
      var init := apps[..|apps| - 1];
      var last := apps[|apps| - 1];
      FoundLists(init, scope);
      FoundKeys(init, scope);
      var m := Found(init, scope);
      forall v | v in Found(apps, scope)
        ensures Found(apps, scope)[v] == Matching(apps, scope, v)
      {
        if v !in m {
          NoneMatching(init, scope, v);
        }
      }
    }
  }

  /** The listing loop's result: the groups of listed values in listing order, and the
      entries that remain. */
  datatype Listing = Listing(names: seq<string>, lists: seq<seq<LaunchProfile>>, rest: map<string, seq<LaunchProfile>>)

  /** The loop over the ordered values: a value that is still found becomes a group and
      leaves the map; absent and repeated values are skipped. */
  function Listed(values: seq<string>, found: map<string, seq<LaunchProfile>>): Listing
    decreases |values|
  {
    if values == [] then Listing([], [], found)
    else
      var l := Listed(values[..|values| - 1], found);
      var v := values[|values| - 1];
      if v in l.rest then Listing(l.names + [v], l.lists + [l.rest[v]], l.rest - {v})
      else l
  }

  /** The first index of `v` in `s`. */
  function IndexOf(s: seq<string>, v: string): (r: nat)
    requires v in s
    ensures r < |s| && s[r] == v && v !in s[..r]
    decreases |s|
  {
    if s[0] == v then 0
    else
      var i := IndexOf(s[1..], v);
      assert s[..i + 1] == [s[0]] + s[1..][..i];
      i + 1
  }

  lemma IndexOfPrefix(s: seq<string>, n: nat, v: string)
    requires n <= |s| && v in s[..n]
    ensures IndexOf(s[..n], v) == IndexOf(s, v)
  {
    var r := IndexOf(s[..n], v);
    var q := IndexOf(s, v);
    assert s[..n][..r] == s[..r];
  }

  /** Listed values are distinct found values taken from the list, each with its
      profiles; every found value in the list is listed; the rest are the unlisted ones. */
  lemma {:induction false} ListedProperties(values: seq<string>, found: map<string, seq<LaunchProfile>>)
    ensures var l := Listed(values, found);
      |l.names| == |l.lists| && Distinct(l.names) &&
      (forall i :: 0 <= i < |l.names| ==> l.names[i] in found && l.names[i] in values && l.lists[i] == found[l.names[i]]) &&
      (forall v :: v in values && v in found ==> v in l.names) &&
      (forall v :: v in l.rest <==> v in found && v !in l.names) &&
      (forall v :: v in l.rest ==> l.rest[v] == found[v])
    decreases |values|
  {
    if values != [] {
      var n := |values| - 1;
      ListedProperties(values[..n], found);
      assert values == values[..n] + [values[n]];
    }
  }

  /** The listed values keep the order of the list. */
  lemma {:induction false} ListedOrder(values: seq<string>, found: map<string, seq<LaunchProfile>>)
    ensures var l := Listed(values, found);
      (forall i :: 0 <= i < |l.names| ==> l.names[i] in values) &&
      forall i, j :: 0 <= i < j < |l.names| ==> IndexOf(values, l.names[i]) < IndexOf(values, l.names[j])
    decreases |values|
  {
    if values != [] {
      var n := |values| - 1;
      ListedOrder(values[..n], found);
      ListedProperties(values[..n], found);
      ListedOrderStep(values, found);
    }
  }

  /** One step of `ListedOrder`: the last value, when listed, comes after all others. */
  lemma ListedOrderStep(values: seq<string>, found: map<string, seq<LaunchProfile>>)
    requires values != []
    requires var l0 := Listed(values[..|values| - 1], found);
      (forall i :: 0 <= i < |l0.names| ==> l0.names[i] in values[..|values| - 1]) &&
      (forall i, j :: 0 <= i < j < |l0.names| ==> IndexOf(values[..|values| - 1], l0.names[i]) < IndexOf(values[..|values| - 1], l0.names[j])) &&
      (forall v :: v in values[..|values| - 1] && v in found ==> v in l0.names) &&
      (forall v :: v in l0.rest <==> v in found && v !in l0.names)
    ensures var l := Listed(values, found);
      (forall i :: 0 <= i < |l.names| ==> l.names[i] in values) &&
      forall i, j :: 0 <= i < j < |l.names| ==> IndexOf(values, l.names[i]) < IndexOf(values, l.names[j])
  {
    var n := |values| - 1;
    var l0 := Listed(values[..n], found);
    IndicesInPrefix(values, l0.names);
    if values[n] in l0.rest {
      AppendLast(values, l0.names);
    }
  }

  /** Values found before the last position keep their first index. */
  lemma IndicesInPrefix(values: seq<string>, names: seq<string>)
    requires values != []
    requires forall i :: 0 <= i < |names| ==> names[i] in values[..|values| - 1]
    ensures forall i :: 0 <= i < |names| ==>
      names[i] in values && IndexOf(values, names[i]) == IndexOf(values[..|values| - 1], names[i]) < |values| - 1
  {
    var n := |values| - 1;
    forall i | 0 <= i < |names|
      ensures names[i] in values && IndexOf(values, names[i]) == IndexOf(values[..n], names[i]) < n
    {
      var v := names[i];
      var k :| 0 <= k < n && values[..n][k] == v;
      assert values[k] == v;
      IndexOfPrefix(values, n, v);
    }
  }

  /** Adding a value seen only at the last position keeps the indices increasing. */
  lemma AppendLast(values: seq<string>, names: seq<string>)
    requires values != [] && values[|values| - 1] !in values[..|values| - 1]
    requires forall i :: 0 <= i < |names| ==> names[i] in values && IndexOf(values, names[i]) < |values| - 1
    requires forall i, j :: 0 <= i < j < |names| ==> IndexOf(values, names[i]) < IndexOf(values, names[j])
    ensures var r := names + [values[|values| - 1]];
      forall i, j :: 0 <= i < j < |r| ==> IndexOf(values, r[i]) < IndexOf(values, r[j])
  {
    var n := |values| - 1;
    var r := names + [values[n]];
    assert IndexOf(values, values[n]) == n;
    forall i, j | 0 <= i < j < |r|
      ensures IndexOf(values, r[i]) < IndexOf(values, r[j])
    {
      assert r[i] == names[i];
      if j < |names| {
        assert r[j] == names[j];
      }
    }
  }

  /** The profiles of the remaining values, value by value in the given order
      (`ellipsis_apps`). */
  function Ellipsis(order: seq<string>, rest: map<string, seq<LaunchProfile>>): seq<LaunchProfile>
    decreases |order|
  {
    if order == [] then []
    else
      var v := order[|order| - 1];
      Ellipsis(order[..|order| - 1], rest) + (if v in rest then rest[v] else [])
  }

  lemma {:induction false} EllipsisMembers(order: seq<string>, rest: map<string, seq<LaunchProfile>>, a: LaunchProfile)
    ensures a in Ellipsis(order, rest) <==> exists v :: v in order && v in rest && a in rest[v]
    decreases |order|
  {
    if order != [] {
      var init := order[..|order| - 1];
      EllipsisMembers(init, rest, a);
      assert order == init + [order[|order| - 1]];
    }
  }

  /** The names of one level's groups and their profiles: the listed values, then "..."
      for the profiles of every unlisted value, if there are any. */
  datatype Level = Level(names: seq<string>, lists: seq<seq<LaunchProfile>>)

  /** The ordered values: the configured order of the scope, else the found values sorted. */
  function ValuesOrder(apps: seq<LaunchProfile>, scope: string, order: map<string, seq<string>>): seq<string> {
    if scope in order then order[scope] else Sort(FoundOrder(apps, scope))
  }

  const EllipsisName := "..."

  function LevelOf(apps: seq<LaunchProfile>, scope: string, order: map<string, seq<string>>): Level {
    var found := Found(apps, scope);
    var l := Listed(ValuesOrder(apps, scope, order), found);
    if l.rest == map[] then Level(l.names, l.lists)
    else Level(l.names + [EllipsisName], l.lists + [Ellipsis(FoundOrder(apps, scope), l.rest)])
  }

  /** The value of a profile in the scope, when it has one that is (not) in the list. */
  predicate ValueIn(a: LaunchProfile, scope: string, values: seq<string>) {
    TagValue(a, scope).Some? && TagValue(a, scope).value in values
  }

  predicate ValueOutside(a: LaunchProfile, scope: string, values: seq<string>) {
    TagValue(a, scope).Some? && TagValue(a, scope).value !in values
  }

  /** A level is its listing, followed by the "..." group when values remain. */
  lemma LevelParts(apps: seq<LaunchProfile>, scope: string, order: map<string, seq<string>>)
    ensures var level := LevelOf(apps, scope, order);
      var l := Listed(ValuesOrder(apps, scope, order), Found(apps, scope));
      var k := |l.names|;
      |l.names| == |l.lists| && |level.names| == |level.lists| &&
      level.names[..k] == l.names && level.lists[..k] == l.lists &&
      (l.rest == map[] ==> |level.names| == k) &&
      (l.rest != map[] ==>
        |level.names| == k + 1 && level.names[k] == EllipsisName &&
        level.lists[k] == Ellipsis(FoundOrder(apps, scope), l.rest))
  {
    ListedProperties(ValuesOrder(apps, scope, order), Found(apps, scope));
  }

  /** The listed groups of a level: distinct values of the ordered list, in its order, each
      with exactly its profiles in their order. */
  lemma LevelListed(apps: seq<LaunchProfile>, scope: string, order: map<string, seq<string>>)
    ensures var level := LevelOf(apps, scope, order);
      var values := ValuesOrder(apps, scope, order);
      var k := |Listed(values, Found(apps, scope)).names|;
      |level.names| == |level.lists| && k <= |level.names| &&
      Distinct(level.names[..k]) &&
      (forall i :: 0 <= i < k ==> level.names[i] in values && level.lists[i] == Matching(apps, scope, level.names[i])) &&
      (forall i, j :: 0 <= i < j < k ==> IndexOf(values, level.names[i]) < IndexOf(values, level.names[j]))
  {
    var values := ValuesOrder(apps, scope, order);
    var found := Found(apps, scope);
    var l := Listed(values, found);
    var level := LevelOf(apps, scope, order);
    var k := |l.names|;
    LevelParts(apps, scope, order);
    ListedProperties(values, found);
    ListedOrder(values, found);
    FoundLists(apps, scope);
    forall i | 0 <= i < k
      ensures level.names[i] == l.names[i] && level.lists[i] == l.lists[i]
    {
      assert level.names[..k][i] == level.names[i] && level.lists[..k][i] == level.lists[i];
    }
  }

  /** Every profile whose value is in the ordered list is in one of the listed groups. */
  lemma LevelCoversListed(apps: seq<LaunchProfile>, scope: string, order: map<string, seq<string>>)
    ensures var level := LevelOf(apps, scope, order);
      var values := ValuesOrder(apps, scope, order);
      var k := |Listed(values, Found(apps, scope)).names|;
      k <= |level.names| &&
      forall a :: a in apps && ValueIn(a, scope, values) ==>
        exists i :: 0 <= i < k && level.names[i] == TagValue(a, scope).value
  {
    var values := ValuesOrder(apps, scope, order);
    var found := Found(apps, scope);
    var l := Listed(values, found);
    var level := LevelOf(apps, scope, order);
    var k := |l.names|;
    LevelParts(apps, scope, order);
    ListedProperties(values, found);
    forall a | a in apps && ValueIn(a, scope, values)
      ensures exists i :: 0 <= i < k && level.names[i] == TagValue(a, scope).value
    {
      var v := TagValue(a, scope).value;
      FoundHas(apps, scope, a);
      var i :| 0 <= i < k && l.names[i] == v;
      assert level.names[..k][i] == level.names[i];
    }
  }

  /** A remaining value is a found value outside the ordered list. */
  lemma RestOutside(apps: seq<LaunchProfile>, scope: string, order: map<string, seq<string>>)
    ensures var values := ValuesOrder(apps, scope, order);
      var l := Listed(values, Found(apps, scope));
      (forall v :: v in l.rest <==> v in Found(apps, scope) && v !in values) &&
      (forall v :: v in l.rest ==> l.rest[v] == Matching(apps, scope, v))
  {
    ListedProperties(ValuesOrder(apps, scope, order), Found(apps, scope));
    FoundLists(apps, scope);
  }

  /** A level ends with a "..." group exactly when some profile's value is not in the
      ordered list, and that group holds exactly those profiles. */
  lemma LevelEllipsis(apps: seq<LaunchProfile>, scope: string, order: map<string, seq<string>>)
    ensures var level := LevelOf(apps, scope, order);
      var values := ValuesOrder(apps, scope, order);
      var k := |Listed(values, Found(apps, scope)).names|;
      |level.lists| == |level.names| &&
      (|level.names| == k + 1 <==> exists a :: a in apps && ValueOutside(a, scope, values)) &&
      (|level.names| != k + 1 ==> |level.names| == k) &&
      (|level.names| == k + 1 ==>
        level.names[k] == EllipsisName &&
        forall a :: a in level.lists[k] <==> a in apps && ValueOutside(a, scope, values))
  {
    var values := ValuesOrder(apps, scope, order);
    var found := Found(apps, scope);
    var l := Listed(values, found);
    LevelParts(apps, scope, order);
    RestOutside(apps, scope, order);
    FoundKeys(apps, scope);
    if l.rest != map[] {
      var v :| v in l.rest;
      var a :| a in apps && TagValue(a, scope) == Some(v);
      assert ValueOutside(a, scope, values);
      forall b
        ensures b in Ellipsis(FoundOrder(apps, scope), l.rest) <==> b in apps && ValueOutside(b, scope, values)
      {
        EllipsisMembers(FoundOrder(apps, scope), l.rest, b);
        if b in apps && ValueOutside(b, scope, values) {
          var w := TagValue(b, scope).value;
          assert w in l.rest && b in l.rest[w];
        }
      }
    } else {
      forall a | a in apps && ValueOutside(a, scope, values)
        ensures false
      {
      }
    }
  }

  /** Without a configured order every value is listed, in strictly increasing order, and
      there is no "..." group. */
  lemma LevelSortedWithoutOrder(apps: seq<LaunchProfile>, scope: string, order: map<string, seq<string>>)
    requires scope !in order
    ensures var level := LevelOf(apps, scope, order);
      |level.names| == |Listed(ValuesOrder(apps, scope, order), Found(apps, scope)).names| &&
      forall i, j :: 0 <= i < j < |level.names| ==> StrLessEq(level.names[i], level.names[j]) && level.names[i] != level.names[j]
  {
    var values := ValuesOrder(apps, scope, order);
    var found := Found(apps, scope);
    var l := Listed(values, found);
    var level := LevelOf(apps, scope, order);
    LevelParts(apps, scope, order);
    RestOutside(apps, scope, order);
    FoundKeys(apps, scope);
    forall v | v in FoundOrder(apps, scope)
      ensures v in values
    {
      assert v in multiset(FoundOrder(apps, scope));
    }
    if l.rest != map[] {
      assert false;
    }
    ListedProperties(values, found);
    ListedOrder(values, found);
    forall i, j | 0 <= i < j < |level.names|
      ensures StrLessEq(level.names[i], level.names[j]) && level.names[i] != level.names[j]
    {
      assert level.names == l.names;
      var a, b := IndexOf(values, l.names[i]), IndexOf(values, l.names[j]);
      assert a < b;
    }
  }

  // The hierarchy

  function Direction(depth: nat): LayoutDirection {
    if depth % 2 == 0 then Horizontal else Vertical
  }

  /** `build_group_hierarchy`: no groups once the tags are used up. */
  function GroupHierarchy(apps: seq<LaunchProfile>, tags: seq<string>, order: map<string, seq<string>>, depth: nat): seq<LaunchGroup>
    decreases |tags| - depth, 2, 0
  {
    if depth >= |tags| then []
    else
      var level := LevelOf(apps, tags[depth], order);
      LevelOfLengths(apps, tags[depth], order);
      GroupsOf(level.names, level.lists, tags, order, depth)
  }

  lemma LevelOfLengths(apps: seq<LaunchProfile>, scope: string, order: map<string, seq<string>>)
    ensures |LevelOf(apps, scope, order).names| == |LevelOf(apps, scope, order).lists|
  {
    ListedProperties(ValuesOrder(apps, scope, order), Found(apps, scope));
  }

  /** The groups of one level, in order. */
  function GroupsOf(names: seq<string>, lists: seq<seq<LaunchProfile>>, tags: seq<string>, order: map<string, seq<string>>, depth: nat): (r: seq<LaunchGroup>)
    requires depth < |tags| && |names| == |lists|
    ensures |r| == |names|
    decreases |tags| - depth, 0, |names|
  {
    seq(|names|, k requires 0 <= k < |names| => LaunchGroupOf(names[k], tags[depth], lists[k], tags, order, depth))
  }

  /** `build_launch_group`: profiles at the last level, nested groups before it. */
  function LaunchGroupOf(value: string, scope: string, apps: seq<LaunchProfile>, tags: seq<string>, order: map<string, seq<string>>, depth: nat): LaunchGroup
    requires depth < |tags|
    decreases |tags| - depth, 0, 0
  {
    var content := if depth == |tags| - 1 then LaunchProfiles(apps) else Groups(GroupHierarchy(apps, tags, order, depth + 1));
    LaunchGroup(value, ScopedTag(scope, value), Direction(depth), content)
  }

  /** Appending a value to a level appends its group. */
  lemma GroupsOfAppend(names: seq<string>, lists: seq<seq<LaunchProfile>>, tags: seq<string>, order: map<string, seq<string>>, depth: nat, v: string, l: seq<LaunchProfile>)
    requires depth < |tags| && |names| == |lists|
    ensures GroupsOf(names + [v], lists + [l], tags, order, depth) ==
      GroupsOf(names, lists, tags, order, depth) + [LaunchGroupOf(v, tags[depth], l, tags, order, depth)]
  {
    var a := GroupsOf(names + [v], lists + [l], tags, order, depth);
    var b := GroupsOf(names, lists, tags, order, depth) + [LaunchGroupOf(v, tags[depth], l, tags, order, depth)];
    forall k | 0 <= k < |a|
      ensures a[k] == b[k]
    {
      if k < |names| {
        assert (names + [v])[k] == names[k] && (lists + [l])[k] == lists[k];
      }
    }
  }

  /** Each group of a level is named after its value and tagged with the level's scope;
      its direction alternates with the depth, starting horizontal; the last level holds
      its profiles and every earlier level nests the next one. */
  lemma HierarchyShape(apps: seq<LaunchProfile>, tags: seq<string>, order: map<string, seq<string>>, depth: nat, i: nat)
    requires depth < |tags|
    ensures var level := LevelOf(apps, tags[depth], order);
      var groups := GroupHierarchy(apps, tags, order, depth);
      |groups| == |level.names| && |level.lists| == |level.names| &&
      (i < |groups| ==>
        var g := groups[i];
        g.name == level.names[i] && g.tag == ScopedTag(tags[depth], level.names[i]) &&
        (g.direction == Horizontal <==> depth % 2 == 0) &&
        (depth == |tags| - 1 ==> g.content == LaunchProfiles(level.lists[i])) &&
        (depth < |tags| - 1 ==> g.content == Groups(GroupHierarchy(level.lists[i], tags, order, depth + 1))))
  {
    var level := LevelOf(apps, tags[depth], order);
    LevelOfLengths(apps, tags[depth], order);
    var groups := GroupHierarchy(apps, tags, order, depth);
    assert groups == GroupsOf(level.names, level.lists, tags, order, depth);
    if i < |level.names| {
      var g := LaunchGroupOf(level.names[i], tags[depth], level.lists[i], tags, order, depth);
      assert groups[i] == g;
      assert g.direction == Direction(depth);
    }
  }

  /** `build_group_hierarchy`: collects the found values, adds the groups of the ordered
      values and then the "..." group. */
  method BuildGroupHierarchy(apps: seq<LaunchProfile>, tags: seq<string>, order: map<string, seq<string>>, depth: nat) returns (groups: seq<LaunchGroup>)
    ensures groups == GroupHierarchy(apps, tags, order, depth)
    decreases |tags| - depth, 2
  {
    if depth >= |tags| {
      return [];
    }
    var scope := tags[depth];
    var found, foundOrder := CollectFound(apps, scope);
    var values := if scope in order then order[scope] else Sort(foundOrder);
    var names, lists, rest;
    groups, names, lists, rest := AddListed(values, found, tags, order, depth);
    if rest != map[] {
      var ellipsis := CollectEllipsis(foundOrder, rest);
      var group := BuildLaunchGroup(EllipsisName, scope, ellipsis, tags, order, depth);
      GroupsOfAppend(names, lists, tags, order, depth, EllipsisName, ellipsis);
      groups := groups + [group];
    }
  }

  /** The loop over the profiles that fills `found_values`. */
  method CollectFound(apps: seq<LaunchProfile>, scope: string) returns (found: map<string, seq<LaunchProfile>>, foundOrder: seq<string>)
    ensures found == Found(apps, scope) && foundOrder == FoundOrder(apps, scope)
  {
    found := map[];
    foundOrder := [];
    for i := 0 to |apps|
      invariant found == Found(apps[..i], scope) && foundOrder == FoundOrder(apps[..i], scope)
    {
      assert apps[..i + 1][..i] == apps[..i];
      var tag := FirstTag(apps[i].tags, scope);
      if tag.Some? {
        var v := tag.value;
        found := found[v := (if v in found then found[v] else []) + [apps[i]]];
        if v !in foundOrder {
          foundOrder := foundOrder + [v];
        }
      }
    }
    assert apps[..|apps|] == apps;
  }

  /** The loop over the ordered values, which takes each found one out of the map. */
  method AddListed(values: seq<string>, all: map<string, seq<LaunchProfile>>, tags: seq<string>, order: map<string, seq<string>>, depth: nat)
    returns (groups: seq<LaunchGroup>, names: seq<string>, lists: seq<seq<LaunchProfile>>, found: map<string, seq<LaunchProfile>>)
    requires depth < |tags|
    ensures Listed(values, all) == Listing(names, lists, found)
    ensures |names| == |lists| && groups == GroupsOf(names, lists, tags, order, depth)
    decreases |tags| - depth, 1
  {
    groups, names, lists, found := [], [], [], all;
    for i := 0 to |values|
      invariant Listed(values[..i], all) == Listing(names, lists, found)
      invariant |names| == |lists| && groups == GroupsOf(names, lists, tags, order, depth)
    {
      assert values[..i + 1][..i] == values[..i];
      var v := values[i];
      if v in found {
        var group := BuildLaunchGroup(v, tags[depth], found[v], tags, order, depth);
        GroupsOfAppend(names, lists, tags, order, depth, v, found[v]);
        groups := groups + [group];
        names := names + [v];
        lists := lists + [found[v]];
        found := found - {v};
      }
    }
    assert values[..|values|] == values;
  }

  /** The loop that gathers the profiles of the remaining values. */
  method CollectEllipsis(foundOrder: seq<string>, rest: map<string, seq<LaunchProfile>>) returns (ellipsis: seq<LaunchProfile>)
    ensures ellipsis == Ellipsis(foundOrder, rest)
  {
    ellipsis := [];
    for i := 0 to |foundOrder|
      invariant ellipsis == Ellipsis(foundOrder[..i], rest)
    {
      assert foundOrder[..i + 1][..i] == foundOrder[..i];
      if foundOrder[i] in rest {
        ellipsis := ellipsis + rest[foundOrder[i]];
      }
    }
    assert foundOrder[..|foundOrder|] == foundOrder;
  }

  /** `build_launch_group`. */
  method BuildLaunchGroup(value: string, scope: string, apps: seq<LaunchProfile>, tags: seq<string>, order: map<string, seq<string>>, depth: nat)
    returns (group: LaunchGroup)
    requires depth < |tags|
    ensures group == LaunchGroupOf(value, scope, apps, tags, order, depth)
    decreases |tags| - depth, 0
  {
    var content;
    if depth == |tags| - 1 {
      content := LaunchProfiles(apps);
    } else {
      var nested := BuildGroupHierarchy(apps, tags, order, depth + 1);
      content := Groups(nested);
    }
    var direction := if depth % 2 == 0 then Horizontal else Vertical;
    group := LaunchGroup(value, ScopedTag(scope, value), direction, content);
  }

  // The configuration

  /** The profiles of all sections; the first section that fails is the error. */
  function ProfilesOf(sections: seq<(string, Section)>, groupTags: seq<string>): (r: Result<seq<LaunchProfile>, ReadError>)
    ensures r.Ok? ==> |r.value| == |sections|
    ensures r.Ok? ==> forall i :: 0 <= i < |sections| ==> Ok(r.value[i]) == ProfileOf(sections[i].0, sections[i].1, groupTags)
    ensures r.Err? <==> exists i :: 0 <= i < |sections| && ProfileOf(sections[i].0, sections[i].1, groupTags).Err?
    decreases |sections|
  {
    if sections == [] then Ok([])
    else match ProfileOf(sections[0].0, sections[0].1, groupTags)
      case Err(e) => Err(e)
      case Ok(p) =>
        match ProfilesOf(sections[1..], groupTags)
        case Err(e) =>
          var i :| 0 <= i < |sections[1..]| && ProfileOf(sections[1..][i].0, sections[1..][i].1, groupTags).Err?;
          assert sections[i + 1] == sections[1..][i];
          Err(e)
        case Ok(ps) =>
          assert forall i :: 1 <= i < |sections| ==> sections[i] == sections[1..][i - 1];
          Ok([p] + ps)
  }

  /** `into_launch_group`: a root group without tag, horizontal, nesting the hierarchy. */
  function IntoLaunchGroup(config: ConfigFile, name: string): (r: Result<LaunchGroup, ReadError>)
    ensures var layout := config.layout.UnwrapOr(LayoutSection([], map[]));
      (r.Ok? <==> ProfilesOf(config.launchProfiles, layout.groups).Ok?) &&
      (r.Ok? ==>
        r.value.name == name && r.value.tag == ScopedTag("", "") && r.value.direction == Horizontal &&
        r.value.content == Groups(GroupHierarchy(ProfilesOf(config.launchProfiles, layout.groups).value, layout.groups, layout.order, 0)))
  {
    var layout := config.layout.UnwrapOr(LayoutSection([], map[]));
    match ProfilesOf(config.launchProfiles, layout.groups)
    case Err(e) => Err(e)
    case Ok(apps) =>
      Ok(LaunchGroup(name, ScopedTag("", ""), Horizontal, Groups(GroupHierarchy(apps, layout.groups, layout.order, 0))))
  }

  /** Without group tags the hierarchy is empty. */
  lemma NoTagsNoGroups(apps: seq<LaunchProfile>, order: map<string, seq<string>>, depth: nat)
    ensures GroupHierarchy(apps, [], order, depth) == []
  {
  }
}
