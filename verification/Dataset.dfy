/**
 The two name maps behind `element.dataset`: attribute names to property names and back,
 and the collection of an element's exposed attributes.
 */
module Dataset {
  import opened Common

  const DATA_PREFIX: string := "data-"

  datatype Attribute<V> = Attribute(name: string, value: V)
  datatype Entry<V> = Entry(property: string, value: V)
  datatype DatasetError = EmptyPropertyName | InvalidPropertyName(c: char)
  datatype Naming = Name(name: string) | Refused(error: DatasetError)

  predicate IsUpper(c: char) { 'A' <= c <= 'Z' }
  predicate IsLower(c: char) { 'a' <= c <= 'z' }

  function Upper(c: char): char
    requires IsLower(c)
  {
    (c as int - 32) as char
  }

  function Lower(c: char): char
    requires IsUpper(c)
  {
    (c as int + 32) as char
  }

  predicate Accepted(c: char) {
    IsUpper(c) || IsLower(c) || '0' <= c <= '9' || c == '-' || c == '_' || c == '.' || c == ':'
  }

  predicate AllAccepted(s: string) { forall i :: 0 <= i < |s| ==> Accepted(s[i]) }
  predicate NoUpper(s: string) { forall i :: 0 <= i < |s| ==> !IsUpper(s[i]) }

  /** Some hyphen stands before an uppercase letter. */
  predicate HyphenUpper(s: string) { exists i :: 0 <= i < |s| - 1 && s[i] == '-' && IsUpper(s[i + 1]) }

  /** Some hyphen stands before a lowercase letter. */
  predicate HyphenLower(s: string) { exists i :: 0 <= i < |s| - 1 && s[i] == '-' && IsLower(s[i + 1]) }

  predicate StartsPair(s: string) { |s| >= 2 && s[0] == '-' && IsLower(s[1]) }

  /** Rewrite hyphen-then-lowercase pairs into the uppercase letter, left to right. */
  function Camel(s: string): string {
    if s == "" then ""
    else if StartsPair(s) then [Upper(s[1])] + Camel(s[2..])
    else [s[0]] + Camel(s[1..])
  }

  /** Write every uppercase letter as a hyphen and the lowercase letter. */
  function Kebab(s: string): string {
    if s == "" then ""
    else if IsUpper(s[0]) then ['-', Lower(s[0])] + Kebab(s[1..])
    else [s[0]] + Kebab(s[1..])
  }

  /** `attribute_to_property`. */
  function PropertyOf(name: string): Option<string> {
    if !(DATA_PREFIX <= name) then None
    else
      var suffix := name[|DATA_PREFIX|..];
      if suffix == "" || HyphenUpper(suffix) then None else Some(Camel(suffix))
  }

  /** `property_to_attribute`. */
  function AttributeFor(property: string): Naming {
    if property == "" then Refused(EmptyPropertyName)
    else
      var bad := FirstRefused(property);
      if bad.Some? then Refused(InvalidPropertyName(bad.value)) else Name(DATA_PREFIX + Kebab(property))
  }

  function FirstRefused(s: string): (c: Option<char>)
    ensures c.None? <==> AllAccepted(s)
    ensures c.Some? ==> exists i :: 0 <= i < |s| && s[i] == c.value && !Accepted(c.value) && AllAccepted(s[..i])
  {
    if s == "" then None
    else if !Accepted(s[0]) then
      assert s[..0] == "";
      Some(s[0])
    else
      var c := FirstRefused(s[1..]);
      assert c.Some? ==> forall i :: 0 <= i < |s| - 1 && AllAccepted(s[1..][..i]) ==> AllAccepted(s[..i + 1]) by {
        forall i | 0 <= i < |s| - 1 && AllAccepted(s[1..][..i])
          ensures AllAccepted(s[..i + 1])
        {
          assert s[..i + 1] == [s[0]] + s[1..][..i];
        }
      }
      assert forall i :: 0 < i <= |s[1..]| ==> s[1..][i - 1] == s[i];
      c
  }

  // ------------------------------------------------------------ the two maps undo each other

  lemma CaseRoundTrip(c: char)
    ensures IsLower(c) ==> IsUpper(Upper(c)) && Lower(Upper(c)) == c
    ensures IsUpper(c) ==> IsLower(Lower(c)) && Upper(Lower(c)) == c
  {
  }

  lemma {:induction false} CamelPair(x: char, rest: string)
    requires IsLower(x)
    ensures Camel(['-', x] + rest) == [Upper(x)] + Camel(rest)
  {
    assert (['-', x] + rest)[2..] == rest;
  }

  lemma {:induction false} CamelOther(c: char, rest: string)
    requires c != '-' || rest == "" || !IsLower(rest[0])
    ensures Camel([c] + rest) == [c] + Camel(rest)
  {
    assert ([c] + rest)[1..] == rest;
  }

  lemma {:induction false} KebabUpper(c: char, rest: string)
    requires IsUpper(c)
    ensures Kebab([c] + rest) == ['-', Lower(c)] + Kebab(rest)
  {
    assert ([c] + rest)[1..] == rest;
  }

  lemma {:induction false} KebabOther(c: char, rest: string)
    requires !IsUpper(c)
    ensures Kebab([c] + rest) == [c] + Kebab(rest)
  {
    assert ([c] + rest)[1..] == rest;
  }

  /** Kebab keeps the first character unless it is uppercase. */
  lemma {:induction false} KebabFirst(s: string)
    ensures s == "" <==> Kebab(s) == ""
    ensures s != "" ==> Kebab(s)[0] == if IsUpper(s[0]) then '-' else s[0]
  {
  }

  lemma {:induction false} CamelKebab(s: string)
    ensures Camel(Kebab(s)) == Camel(s)
  {
    if StartsPair(s) {
      var x, rest := s[1], s[2..];
      assert s == ['-', x] + rest && s == ['-'] + ([x] + rest);
      CamelKebab(rest);
      assert Kebab(s) == ['-', x] + Kebab(rest) by {
        KebabOther('-', [x] + rest);
        KebabOther(x, rest);
      }
      CamelPair(x, rest);
      CamelPair(x, Kebab(rest));
    } else if s != "" {
      var c, rest := s[0], s[1..];
      assert s == [c] + rest;
      CamelKebab(rest);
      CamelOther(c, rest);
      if IsUpper(c) {
        KebabUpper(c, rest);
        CaseRoundTrip(c);
        CamelPair(Lower(c), Kebab(rest));
      } else {
        KebabOther(c, rest);
        KebabFirst(rest);
        CamelOther(c, Kebab(rest));
      }
    }
  }

  lemma {:induction false} KebabCamel(s: string)
    ensures Kebab(Camel(s)) == Kebab(s)
  {
    if StartsPair(s) {
      var x, rest := s[1], s[2..];
      assert s == ['-', x] + rest && s == ['-'] + ([x] + rest);
      KebabCamel(rest);
      CamelPair(x, rest);
      CaseRoundTrip(x);
      KebabUpper(Upper(x), Camel(rest));
      KebabOther('-', [x] + rest);
      KebabOther(x, rest);
    } else if s != "" {
      var c, rest := s[0], s[1..];
      assert s == [c] + rest;
      KebabCamel(rest);
      CamelOther(c, rest);
      if IsUpper(c) {
        KebabUpper(c, rest);
        KebabUpper(c, Camel(rest));
      } else {
        KebabOther(c, rest);
        KebabOther(c, Camel(rest));
      }
    }
  }

  lemma {:induction false} KebabPlain(s: string)
    ensures NoUpper(Kebab(s))
    ensures AllAccepted(Kebab(s)) <==> AllAccepted(s)
    ensures Kebab(s) == s <==> NoUpper(s)
    ensures |Kebab(s)| >= |s|
  {
    if s != "" {
      KebabPlain(s[1..]);
      assert AllAccepted(s) <==> Accepted(s[0]) && AllAccepted(s[1..]);
      assert NoUpper(s) <==> !IsUpper(s[0]) && NoUpper(s[1..]);
      var k := Kebab(s);
      if IsUpper(s[0]) {
        assert AllAccepted(k) <==> AllAccepted(k[2..]);
        assert k[2..] == Kebab(s[1..]);
      } else {
        assert k[1..] == Kebab(s[1..]);
        assert AllAccepted(k) <==> Accepted(k[0]) && AllAccepted(k[1..]);
      }
    }
  }

  lemma HyphenLowerStep(s: string)
    requires s != "" && !StartsPair(s)
    ensures HyphenLower(s) <==> HyphenLower(s[1..])
  {
    if HyphenLower(s) {
      var i :| 0 <= i < |s| - 1 && s[i] == '-' && IsLower(s[i + 1]);
      assert s[1..][i - 1] == '-' && IsLower(s[1..][i]);
    }
    if HyphenLower(s[1..]) {
      var i :| 0 <= i < |s[1..]| - 1 && s[1..][i] == '-' && IsLower(s[1..][i + 1]);
      assert s[i + 1] == '-' && IsLower(s[i + 2]);
    }
  }

  lemma {:induction false} CamelLength(s: string)
    ensures |Camel(s)| <= |s|
    ensures Camel(s) == "" <==> s == ""
  {
    if StartsPair(s) {
      CamelLength(s[2..]);
    } else if s != "" {
      CamelLength(s[1..]);
    }
  }

  lemma {:induction false} CamelUnchanged(s: string)
    ensures Camel(s) == s <==> !HyphenLower(s)
  {
    if StartsPair(s) {
      CamelLength(s[2..]);
      assert HyphenLower(s);
      assert |Camel(s)| < |s|;
    } else if s != "" {
      CamelUnchanged(s[1..]);
      HyphenLowerStep(s);
      assert Camel(s)[1..] == Camel(s[1..]) && s == [s[0]] + s[1..];
    }
  }

  lemma AcceptedCons(c: char, s: string)
    ensures AllAccepted([c] + s) <==> Accepted(c) && AllAccepted(s)
  {
    var t := [c] + s;
    assert t[0] == c && t[1..] == s;
    if AllAccepted(t) {
      forall i | 0 <= i < |s|
        ensures Accepted(s[i])
      {
        assert t[i + 1] == s[i];
      }
    }
  }

  lemma {:induction false} CamelAccepted(s: string)
    ensures AllAccepted(Camel(s)) <==> AllAccepted(s)
  {
    if StartsPair(s) {
      CamelAccepted(s[2..]);
      CaseRoundTrip(s[1]);
      assert s == [s[0]] + ([s[1]] + s[2..]);
      AcceptedCons(s[0], [s[1]] + s[2..]);
      AcceptedCons(s[1], s[2..]);
      AcceptedCons(Upper(s[1]), Camel(s[2..]));
    } else if s != "" {
      CamelAccepted(s[1..]);
      assert s == [s[0]] + s[1..];
      AcceptedCons(s[0], s[1..]);
      AcceptedCons(s[0], Camel(s[1..]));
    }
  }

  lemma {:induction false} CamelPlain(s: string)
    ensures Camel(s) == s <==> !HyphenLower(s)
    ensures AllAccepted(Camel(s)) <==> AllAccepted(s)
    ensures Camel(s) == "" <==> s == ""
  {
    CamelUnchanged(s);
    CamelAccepted(s);
    CamelLength(s);
  }

  /**
   What an exposed attribute's property names in turn: the attribute itself exactly when
   its suffix is accepted and has no uppercase.
   */
  lemma AttributeRoundTrip(name: string)
    requires PropertyOf(name).Some?
    ensures AttributeFor(PropertyOf(name).value) == Name(name) <==>
            AllAccepted(name[|DATA_PREFIX|..]) && NoUpper(name[|DATA_PREFIX|..])
  {
    var suffix := name[|DATA_PREFIX|..];
    assert name == DATA_PREFIX + suffix;
    CamelPlain(suffix);
    KebabCamel(suffix);
    KebabPlain(suffix);
    assert DATA_PREFIX + Kebab(suffix) == name <==> Kebab(suffix) == suffix by {
      assert (DATA_PREFIX + Kebab(suffix))[|DATA_PREFIX|..] == Kebab(suffix);
    }
  }

  /** An exposed attribute whose property does not name it: the uppercase letter becomes a pair. */
  lemma {:induction false} InverseFails()
    ensures PropertyOf("data-A") == Some("A")
    ensures AttributeFor("A") == Name("data--a")
  {
    var name := "data-A";
    assert name[|DATA_PREFIX|..] == "A" && DATA_PREFIX <= name;
    assert !HyphenUpper("A");
    assert "A" == ['A'] + "";
    CamelOther('A', "");
    KebabUpper('A', "");
    assert Kebab("") == "" && Camel("") == "";
    assert FirstRefused("A").None?;
    assert DATA_PREFIX + ['-', 'a'] == "data--a";
  }

  /** A dot and a colon are accepted and kept. */
  lemma {:induction false} PunctuationAccepted()
    ensures AttributeFor("a.b:c") == Name("data-a.b:c")
  {
    assert AllAccepted("a.b:c");
    KebabPlain("a.b:c");
    assert DATA_PREFIX + "a.b:c" == "data-a.b:c";
  }

  /**
   Every accepted property comes back with its hyphen-lowercase pairs rewritten, so
   unchanged exactly when it has none.
   */
  lemma {:induction false} PropertyRoundTrip(property: string)
    requires property != "" && AllAccepted(property)
    ensures AttributeFor(property).Name?
    ensures PropertyOf(AttributeFor(property).name) == Some(Camel(property))
    ensures PropertyOf(AttributeFor(property).name) == Some(property) <==> !HyphenLower(property)
  {
    ExposedKebab(property);
    CamelPlain(property);
  }

  lemma {:induction false} ExposedKebab(property: string)
    requires property != ""
    ensures PropertyOf(DATA_PREFIX + Kebab(property)) == Some(Camel(property))
  {
    KebabPlain(property);
    CamelKebab(property);
    ExposedSuffix(Kebab(property));
  }

  lemma {:induction false} ExposedSuffix(suffix: string)
    requires suffix != "" && NoUpper(suffix)
    ensures PropertyOf(DATA_PREFIX + suffix) == Some(Camel(suffix))
  {
    var name := DATA_PREFIX + suffix;
    assert name[|DATA_PREFIX|..] == suffix;
  }

  /** Two accepted properties share an attribute exactly when they agree after rewriting hyphen-lowercase pairs. */
  lemma {:induction false} PropertiesCollide(p: string, q: string)
    requires AttributeFor(p).Name? && AttributeFor(q).Name?
    ensures AttributeFor(p) == AttributeFor(q) <==> Camel(p) == Camel(q)
  {
    CamelKebab(p);
    CamelKebab(q);
    KebabCamel(p);
    KebabCamel(q);
    assert (DATA_PREFIX + Kebab(p))[|DATA_PREFIX|..] == Kebab(p);
    assert (DATA_PREFIX + Kebab(q))[|DATA_PREFIX|..] == Kebab(q);
  }

  /** Two exposed attributes share a property exactly when they agree after writing uppercase letters as pairs. */
  lemma {:induction false} AttributesCollide(a: string, b: string)
    requires PropertyOf(a).Some? && PropertyOf(b).Some?
    ensures PropertyOf(a) == PropertyOf(b) <==> Kebab(a) == Kebab(b)
  {
    var x, y := a[|DATA_PREFIX|..], b[|DATA_PREFIX|..];
    CamelKebab(x);
    CamelKebab(y);
    KebabCamel(x);
    KebabCamel(y);
    PrefixKebab(x);
    PrefixKebab(y);
    assert a == DATA_PREFIX + x && b == DATA_PREFIX + y;
    assert (DATA_PREFIX + Kebab(x))[|DATA_PREFIX|..] == Kebab(x);
    assert (DATA_PREFIX + Kebab(y))[|DATA_PREFIX|..] == Kebab(y);
  }

  lemma {:induction false} KebabAppend(s: string, t: string)
    ensures Kebab(s + t) == Kebab(s) + Kebab(t)
  {
    if s == "" {
      assert s + t == t;
    } else {
      assert (s + t)[1..] == s[1..] + t;
      KebabAppend(s[1..], t);
    }
  }

  lemma {:induction false} PrefixKebab(s: string)
    ensures Kebab(DATA_PREFIX + s) == DATA_PREFIX + Kebab(s)
  {
    KebabAppend(DATA_PREFIX, s);
    KebabPlain(DATA_PREFIX);
  }

  // ------------------------------------------------------------ the loops

  /** The window scan of `attribute_to_property`. */
  method FindHyphenUpper(s: string) returns (found: bool)
    ensures found <==> HyphenUpper(s)
  {
    var i := 0;
    while i + 1 < |s|
      invariant 0 <= i
      invariant forall k :: 0 <= k < i && k < |s| - 1 ==> !(s[k] == '-' && IsUpper(s[k + 1]))
    {
      if s[i] == '-' && IsUpper(s[i + 1]) {
        return true;
      }
      i := i + 1;
    }
    return false;
  }

  method RewritePairs(s: string) returns (out: string)
    ensures out == Camel(s)
  {
    out := "";
    var i := 0;
    while i < |s|
      invariant 0 <= i <= |s|
      invariant out + Camel(s[i..]) == Camel(s)
    {
      ghost var before := out;
      CamelStep(s, i);
      if s[i] == '-' && i + 1 < |s| && IsLower(s[i + 1]) {
        Assoc(before, [Upper(s[i + 1])], Camel(s[i + 2..]));
        out := out + [Upper(s[i + 1])];
        i := i + 2;
      } else {
        Assoc(before, [s[i]], Camel(s[i + 1..]));
        out := out + [s[i]];
        i := i + 1;
      }
    }
    assert s[|s|..] == "";
  }

  lemma CamelStep(s: string, i: nat)
    requires i < |s|
    ensures Camel(s[i..]) ==
            if s[i] == '-' && i + 1 < |s| && IsLower(s[i + 1]) then [Upper(s[i + 1])] + Camel(s[i + 2..])
            else [s[i]] + Camel(s[i + 1..])
  {
    if s[i] == '-' && i + 1 < |s| && IsLower(s[i + 1]) {
      assert s[i..] == ['-', s[i + 1]] + s[i + 2..];
      CamelPair(s[i + 1], s[i + 2..]);
    } else {
      assert s[i..] == [s[i]] + s[i + 1..];
      CamelOther(s[i], s[i + 1..]);
    }
  }

  method AttributeToProperty(name: string) returns (property: Option<string>)
    ensures property == PropertyOf(name)
  {
    if !(DATA_PREFIX <= name) {
      return None;
    }
    var suffix := name[|DATA_PREFIX|..];
    if suffix == "" {
      return None;
    }
    var hidden := FindHyphenUpper(suffix);
    if hidden {
      return None;
    }
    var out := RewritePairs(suffix);
    return Some(out);
  }

  method PropertyToAttribute(property: string) returns (r: Naming)
    ensures r == AttributeFor(property)
  {
    if property == "" {
      return Refused(EmptyPropertyName);
    }
    var name := DATA_PREFIX;
    for i := 0 to |property|
      invariant name + Kebab(property[i..]) == DATA_PREFIX + Kebab(property)
      invariant FirstRefused(property[i..]) == FirstRefused(property)
    {
      var c := property[i];
      ghost var rest := property[i + 1..];
      assert property[i..] == [c] + rest && property[i..][1..] == rest;
      if IsUpper(c) {
        KebabUpper(c, rest);
        name := name + ['-'];
        name := name + [Lower(c)];
      } else if Accepted(c) {
        KebabOther(c, rest);
        name := name + [c];
      } else {
        return Refused(InvalidPropertyName(c));
      }
    }
    r := Name(name);
  }

  // ------------------------------------------------------------ collection

  /** Attribute `i` is the first one that exposes its property. */
  predicate Leads<V>(attrs: seq<Attribute<V>>, i: nat)
    requires i < |attrs|
  {
    && PropertyOf(attrs[i].name).Some?
    && forall j :: 0 <= j < i ==> PropertyOf(attrs[j].name) != PropertyOf(attrs[i].name)
  }

  /** Positions of the leading attributes among the first `n`, in document order. */
  function Leaders<V>(attrs: seq<Attribute<V>>, n: nat): (at: seq<nat>)
    requires n <= |attrs|
    ensures forall k :: 0 <= k < |at| ==> at[k] < n && Leads(attrs, at[k])
    ensures forall k, l :: 0 <= k < l < |at| ==> at[k] < at[l]
    ensures forall i :: 0 <= i < n && Leads(attrs, i) ==> i in at
  {
    if n == 0 then [] else if Leads(attrs, n - 1) then Leaders(attrs, n - 1) + [n - 1] else Leaders(attrs, n - 1)
  }

  /** The entries of the attributes at the given positions, in order. */
  ghost predicate Collects<V>(attrs: seq<Attribute<V>>, at: seq<nat>, entries: seq<Entry<V>>)
    requires forall k :: 0 <= k < |at| ==> at[k] < |attrs| && PropertyOf(attrs[at[k]].name).Some?
  {
    && |entries| == |at|
    && forall k :: 0 <= k < |at| ==>
         entries[k] == Entry(PropertyOf(attrs[at[k]].name).value, attrs[at[k]].value)
  }

  /** One of the first `n` attributes exposes the property. */
  predicate Exposed<V>(attrs: seq<Attribute<V>>, n: nat, property: string)
    requires n <= |attrs|
  {
    exists i :: 0 <= i < n && PropertyOf(attrs[i].name) == Some(property)
  }

  /** An exposed property has a leading attribute. */
  lemma {:induction false} Leader<V>(attrs: seq<Attribute<V>>, n: nat, property: string) returns (i: nat)
    requires n <= |attrs| && Exposed(attrs, n, property)
    ensures i < n && Leads(attrs, i) && PropertyOf(attrs[i].name) == Some(property)
    decreases n
  {
    if Exposed(attrs, n - 1, property) {
      i := Leader(attrs, n - 1, property);
    } else {
      i := n - 1;
    }
  }

  /** A property is among the collected entries exactly when some attribute exposes it. */
  lemma {:induction false} CollectedExact<V>(attrs: seq<Attribute<V>>, n: nat, entries: seq<Entry<V>>, property: string)
    requires n <= |attrs| && Collects(attrs, Leaders(attrs, n), entries)
    ensures Has(entries, property) <==> Exposed(attrs, n, property)
  {
    var at := Leaders(attrs, n);
    if Has(entries, property) {
      var k :| 0 <= k < |entries| && entries[k].property == property;
      assert PropertyOf(attrs[at[k]].name) == Some(property);
    }
    if Exposed(attrs, n, property) {
      var i := Leader(attrs, n, property);
      var k :| 0 <= k < |at| && at[k] == i;
      assert entries[k].property == property;
    }
  }

  /** No property is collected twice. */
  lemma {:induction false} CollectedOnce<V>(attrs: seq<Attribute<V>>, entries: seq<Entry<V>>, k: nat, l: nat)
    requires Collects(attrs, Leaders(attrs, |attrs|), entries) && k < l < |entries|
    ensures entries[k].property != entries[l].property
  {
    var at := Leaders(attrs, |attrs|);
    assert at[k] < at[l] && Leads(attrs, at[l]);
  }

  predicate Has<V>(entries: seq<Entry<V>>, property: string) {
    exists k :: 0 <= k < |entries| && entries[k].property == property
  }

  /** One more attribute: it leads exactly when its property is new, and then its entry is appended. */
  lemma {:induction false} CollectsStep<V>(attrs: seq<Attribute<V>>, i: nat, entries: seq<Entry<V>>)
    requires i < |attrs| && Collects(attrs, Leaders(attrs, i), entries)
    ensures var property := PropertyOf(attrs[i].name);
            property.None? || Has(entries, property.value) ==> Collects(attrs, Leaders(attrs, i + 1), entries)
    ensures var property := PropertyOf(attrs[i].name);
            property.Some? && !Has(entries, property.value) ==>
              Collects(attrs, Leaders(attrs, i + 1), entries + [Entry(property.value, attrs[i].value)])
  {
    var property := PropertyOf(attrs[i].name);
    if property.Some? {
      CollectedExact(attrs, i, entries, property.value);
      assert Leads(attrs, i) <==> !Has(entries, property.value);
    }
  }

  /** The list of seen names holds the properties of the entries. */
  predicate Mirrors<V>(seen: seq<string>, entries: seq<Entry<V>>) {
    |seen| == |entries| && forall k :: 0 <= k < |entries| ==> seen[k] == entries[k].property
  }

  lemma {:induction false} MirrorsHas<V>(seen: seq<string>, entries: seq<Entry<V>>, e: Entry<V>)
    requires Mirrors(seen, entries)
    ensures e.property in seen <==> Has(entries, e.property)
    ensures Mirrors(seen + [e.property], entries + [e])
  {
    if e.property in seen {
      var k :| 0 <= k < |seen| && seen[k] == e.property;
      assert entries[k].property == e.property;
    }
  }

  method CollectDataset<V>(attrs: seq<Attribute<V>>) returns (out: seq<Entry<V>>)
    ensures Collects(attrs, Leaders(attrs, |attrs|), out)
  {
    out := [];
    var seen: seq<string> := [];
    for i := 0 to |attrs|
      invariant Collects(attrs, Leaders(attrs, i), out)
      invariant Mirrors(seen, out)
    {
      CollectsStep(attrs, i, out);
      var property := AttributeToProperty(attrs[i].name);
      if property.Some? {
        MirrorsHas(seen, out, Entry(property.value, attrs[i].value));
        if property.value !in seen {
          seen := seen + [property.value];
          out := out + [Entry(property.value, attrs[i].value)];
        }
      }
    }
  }

  // ------------------------------------------------------------ single characters and hidden names

  /** A name of one character: letters and digits, four marks and nothing else; uppercase becomes a pair. */
  lemma {:induction false} OneCharacter(c: char)
    ensures AttributeFor("") == Refused(EmptyPropertyName)
    ensures AttributeFor([c]) ==
            if 'A' <= c <= 'Z' then Name("data--" + ["abcdefghijklmnopqrstuvwxyz"[c as int - 65]])
            else if 'a' <= c <= 'z' || '0' <= c <= '9' || c == '-' || c == '_' || c == '.' || c == ':'
            then Name("data-" + [c])
            else Refused(InvalidPropertyName(c))
  {
    assert [c] == [c] + "" && [c][1..] == "" && Kebab("") == "";
    assert FirstRefused("") == None;
    if IsUpper(c) {
      KebabUpper(c, "");
      LowerTable(c);
      assert DATA_PREFIX + ['-', Lower(c)] == "data--" + [Lower(c)];
    } else {
      KebabOther(c, "");
    }
  }

  lemma LowerTable(c: char)
    requires IsUpper(c)
    ensures Lower(c) == "abcdefghijklmnopqrstuvwxyz"[c as int - 65]
  {
  }

  /** An attribute is exposed exactly when it is "data-" and something without a hyphen before an uppercase letter. */
  lemma {:induction false} ExposedExactly(name: string)
    ensures PropertyOf(name).Some? <==>
            && |name| > 5 && name[..5] == "data-"
            && forall i :: 5 <= i < |name| - 1 && name[i] == '-' ==> !('A' <= name[i + 1] <= 'Z')
  {
    if |name| >= 5 && name[..5] == "data-" {
      var suffix := name[5..];
      assert DATA_PREFIX <= name;
      if HyphenUpper(suffix) {
        var i :| 0 <= i < |suffix| - 1 && suffix[i] == '-' && IsUpper(suffix[i + 1]);
        assert name[i + 5] == '-' && 'A' <= name[i + 5 + 1] <= 'Z';
      } else {
        forall i | 5 <= i < |name| - 1 && name[i] == '-'
          ensures !('A' <= name[i + 1] <= 'Z')
        {
          assert suffix[i - 5] == name[i] && suffix[i - 5 + 1] == name[i + 1];
        }
      }
    }
  }
}
