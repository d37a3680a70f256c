/**
 What the image list holds, in terms of the elements' names and attributes alone: which
 images, which policies, and in which order.
 */
module ImageItems {
  import opened Common
  import opened RenderProjection

  // ------------------------------------------------------------ attributes

  /** The first attribute with the name has the value. */
  predicate IsFirst(attributes: seq<Attribute>, name: string, value: string) {
    exists i :: 0 <= i < |attributes| && attributes[i] == Attribute(name, value) && Absent(attributes[..i], name)
  }

  predicate Absent(attributes: seq<Attribute>, name: string) {
    forall i :: 0 <= i < |attributes| ==> attributes[i].name != name
  }

  lemma {:induction false} FirstValueExact(attributes: seq<Attribute>, name: string, value: string)
    ensures FirstValue(attributes, name) == Some(value) <==> IsFirst(attributes, name, value)
  {
    if attributes != [] {
      var rest := attributes[1..];
      FirstValueExact(rest, name, value);
      if attributes[0].name == name {
        assert attributes[0].value == value ==>
            attributes[0] == Attribute(name, value) && Absent(attributes[..0], name);
        if IsFirst(attributes, name, value) {
          var i :| 0 <= i < |attributes| && attributes[i] == Attribute(name, value) && Absent(attributes[..i], name);
          assert forall m :: 0 <= m < |attributes[..i]| ==> attributes[..i][m].name != name;
        }
      } else {
        FirstShift(attributes, name, value);
      }
    }
  }

  lemma FirstShift(attributes: seq<Attribute>, name: string, value: string)
    requires attributes != [] && attributes[0].name != name
    ensures IsFirst(attributes, name, value) <==> IsFirst(attributes[1..], name, value)
  {
    var rest := attributes[1..];
    if IsFirst(rest, name, value) {
      var i :| 0 <= i < |rest| && rest[i] == Attribute(name, value) && Absent(rest[..i], name);
      assert attributes[..i + 1] == [attributes[0]] + rest[..i];
      assert attributes[i + 1] == rest[i] && Absent(attributes[..i + 1], name);
    }
    if IsFirst(attributes, name, value) {
      var i :| 0 <= i < |attributes| && attributes[i] == Attribute(name, value) && Absent(attributes[..i], name);
      assert rest[i - 1] == attributes[i];
      var shorter := rest[..i - 1];
      assert attributes[..i] == [attributes[0]] + shorter;
      forall k | 0 <= k < |shorter|
        ensures shorter[k].name != name
      {
        assert attributes[..i][k + 1] == shorter[k];
      }
    }
  }

  // ------------------------------------------------------------ white space and case

  /** The code points with the Unicode property White_Space. */
  predicate WhiteCode(c: int) {
    || 0x9 <= c <= 0xD || c == 0x20 || c == 0x85 || c == 0xA0 || c == 0x1680 || 0x2000 <= c <= 0x200A
    || c == 0x2028 || c == 0x2029 || c == 0x202F || c == 0x205F || c == 0x3000
  }

  predicate AllWhite(s: string) { forall i :: 0 <= i < |s| ==> WhiteCode(s[i] as int) }

  lemma WhitespaceExact(c: char)
    ensures IsWhitespace(c) <==> WhiteCode(c as int)
  {
  }

  lemma BlankExact(s: string)
    ensures Blank(s) <==> AllWhite(s)
  {
    forall i | 0 <= i < |s|
      ensures IsWhitespace(s[i]) <==> WhiteCode(s[i] as int)
    {
      WhitespaceExact(s[i]);
    }
  }

  /** Equal, or one letter in its two ASCII cases. */
  predicate SameLetter(a: char, b: char) {
    || a == b
    || ('A' <= a <= 'Z' && b as int == a as int + 32)
    || ('A' <= b <= 'Z' && a as int == b as int + 32)
  }

  predicate SameLetters(a: string, b: string) {
    |a| == |b| && forall i :: 0 <= i < |a| ==> SameLetter(a[i], b[i])
  }

  lemma LetterExact(a: char, b: char)
    ensures AsciiLower(a) == AsciiLower(b) <==> SameLetter(a, b)
  {
  }

  lemma LettersExact(a: string, b: string)
    ensures EqIgnoreAsciiCase(a, b) <==> SameLetters(a, b)
  {
    if |a| == |b| {
      forall i | 0 <= i < |a|
        ensures AsciiLower(a[i]) == AsciiLower(b[i]) <==> SameLetter(a[i], b[i])
      {
        LetterExact(a[i], b[i]);
      }
    }
  }

  // ------------------------------------------------------------ trimming

  lemma {:induction false} TrimStartSplits(s: string) returns (front: string)
    ensures AllWhite(front) && s == front + TrimStart(s)
    ensures TrimStart(s) != "" ==> !IsWhitespace(TrimStart(s)[0])
  {
    if s != "" && IsWhitespace(s[0]) {
      WhitespaceExact(s[0]);
      var more := TrimStartSplits(s[1..]);
      front := [s[0]] + more;
      assert s == [s[0]] + (more + TrimStart(s)) == front + TrimStart(s);
    } else {
      front := "";
      assert s == "" + s;
    }
  }

  lemma {:induction false} TrimEndSplits(s: string) returns (back: string)
    ensures AllWhite(back) && s == TrimEnd(s) + back
  {
    if s != "" && IsWhitespace(s[|s| - 1]) {
      WhitespaceExact(s[|s| - 1]);
      var more := TrimEndSplits(s[..|s| - 1]);
      back := more + [s[|s| - 1]];
      assert s == s[..|s| - 1] + [s[|s| - 1]] == TrimEnd(s) + back;
    } else {
      back := "";
      assert s == s + "";
    }
  }

  lemma {:induction false} TrimStartSkips(front: string, core: string)
    requires AllWhite(front) && (core == "" || !IsWhitespace(core[0]))
    ensures TrimStart(front + core) == core
  {
    if front == "" {
      assert front + core == core;
    } else {
      WhitespaceExact(front[0]);
      assert (front + core)[1..] == front[1..] + core;
      TrimStartSkips(front[1..], core);
    }
  }

  lemma {:induction false} TrimEndSkips(core: string, back: string)
    requires AllWhite(back) && (core == "" || !IsWhitespace(core[|core| - 1]))
    ensures TrimEnd(core + back) == core
  {
    if back == "" {
      assert core + back == core;
    } else {
      var n, s := |back| - 1, core + back;
      WhitespaceExact(back[n]);
      assert s[..|s| - 1] == core + back[..n] && s[|s| - 1] == back[n];
      TrimEndSkips(core, back[..n]);
    }
  }

  /** The value is the wanted word in any case, with white space around it. */
  ghost predicate Spells(value: string, word: string) {
    exists front, core, back ::
      value == front + (core + back) && AllWhite(front) && AllWhite(back) && SameLetters(core, word)
  }

  lemma LetterNotWhite(c: char, letter: char)
    requires SameLetter(c, letter) && ('A' <= letter <= 'Z' || 'a' <= letter <= 'z')
    ensures !IsWhitespace(c)
  {
  }

  /** White space around a core that starts and ends in something else is what trimming removes. */
  lemma {:induction false} TrimFinds(front: string, core: string, back: string)
    requires AllWhite(front) && AllWhite(back)
    requires core != "" && !IsWhitespace(core[0]) && !IsWhitespace(core[|core| - 1])
    ensures TrimEnd(TrimStart(front + (core + back))) == core
  {
    assert (core + back)[0] == core[0];
    TrimStartSkips(front, core + back);
    TrimEndSkips(core, back);
  }

  lemma {:induction false} TrimSplits(value: string) returns (front: string, back: string)
    ensures value == front + (TrimEnd(TrimStart(value)) + back) && AllWhite(front) && AllWhite(back)
  {
    front := TrimStartSplits(value);
    back := TrimEndSplits(TrimStart(value));
  }

  lemma {:induction false} TrimmedExact(value: string, word: string)
    requires word != "" && 'A' <= word[0] <= 'Z' && 'a' <= word[|word| - 1] <= 'z'
    ensures EqIgnoreAsciiCase(TrimEnd(TrimStart(value)), word) <==> Spells(value, word)
  {
    var core := TrimEnd(TrimStart(value));
    LettersExact(core, word);
    if SameLetters(core, word) {
      var front, back := TrimSplits(value);
      assert Spells(value, word);
    }
    if Spells(value, word) {
      SpelledTrims(value, word);
    }
  }

  lemma {:induction false} SpelledTrims(value: string, word: string)
    requires word != "" && 'A' <= word[0] <= 'Z' && 'a' <= word[|word| - 1] <= 'z' && Spells(value, word)
    ensures SameLetters(TrimEnd(TrimStart(value)), word)
  {
    var f, c, b :| value == f + (c + b) && AllWhite(f) && AllWhite(b) && SameLetters(c, word);
    LetterNotWhite(c[0], word[0]);
    LetterNotWhite(c[|c| - 1], word[|word| - 1]);
    TrimFinds(f, c, b);
  }

  // ------------------------------------------------------------ the list

  /** A `meta` element that declares a content security policy. */
  ghost predicate DeclaresCsp(attributes: seq<Attribute>) {
    exists i :: 0 <= i < |attributes| && attributes[i].name == "http-equiv"
                && Spells(attributes[i].value, "Content-Security-Policy")
  }

  lemma {:induction false} CspPolicyExact(attributes: seq<Attribute>, policy: string)
    ensures CspPolicy(attributes) == Some(policy) <==> DeclaresCsp(attributes) && IsFirst(attributes, "content", policy)
  {
    FirstValueExact(attributes, "content", policy);
    var word := "Content-Security-Policy";
    assert word[0] == 'C' && word[|word| - 1] == 'y';
    forall i | 0 <= i < |attributes|
      ensures EqIgnoreAsciiCase(TrimEnd(TrimStart(attributes[i].value)), word) <==> Spells(attributes[i].value, word)
    {
      TrimmedExact(attributes[i].value, word);
    }
  }

  /** The element is an image with this source. */
  predicate IsImage(m: Met, src: string) {
    m.name == "img" && IsFirst(m.attributes, "src", src) && !AllWhite(src)
  }

  /** The element carries this policy. */
  ghost predicate IsPolicy(m: Met, policy: string) {
    m.name == "meta" && DeclaresCsp(m.attributes) && IsFirst(m.attributes, "content", policy)
  }

  lemma {:induction false} ItemsOfImage(n: nat, m: Met, src: string)
    ensures IsImage(m, src) <==> Image(n, src) in ItemsOf(n, m)
    ensures IsImage(m, src) ==> ItemsOf(n, m) == [Image(n, src)]
  {
    FirstValueExact(m.attributes, "src", src);
    BlankExact(src);
  }

  lemma {:induction false} ItemsOfPolicy(n: nat, m: Met, policy: string)
    ensures IsPolicy(m, policy) <==> CspMeta(policy) in ItemsOf(n, m)
    ensures IsPolicy(m, policy) ==> ItemsOf(n, m) == [CspMeta(policy)]
  {
    CspPolicyExact(m.attributes, policy);
  }

  /** An image is listed exactly when the element with that number is an `img` with that first, non-blank source. */
  lemma {:induction false} ImageListed(met: seq<Met>, n: nat, src: string)
    ensures Image(n, src) in Items(met) <==> 1 <= n <= |met| && IsImage(met[n - 1], src)
  {
    ImagesExact(met, Image(n, src));
    if 1 <= n <= |met| {
      ItemsOfImage(n, met[n - 1], src);
    }
  }

  /** A policy is listed exactly when some `meta` element carries it. */
  lemma {:induction false} PolicyListed(met: seq<Met>, policy: string)
    ensures CspMeta(policy) in Items(met) <==> exists k :: 0 <= k < |met| && IsPolicy(met[k], policy)
  {
    NumberedIn(ItemsOf, met, 0, CspMeta(policy));
    forall k | 0 <= k < |met|
      ensures IsPolicy(met[k], policy) <==> CspMeta(policy) in ItemsOf(0 + k + 1, met[k])
    {
      ItemsOfPolicy(k + 1, met[k], policy);
    }
  }

  /** Where the items of element `k` start in the list. */
  function Place(met: seq<Met>, k: nat): nat
    requires k <= |met|
  {
    |Items(met[..k])|
  }

  lemma {:induction false} PlaceHolds(met: seq<Met>, k: nat, item: Item)
    requires k < |met| && ItemsOf(k + 1, met[k]) == [item]
    ensures Place(met, k) < |Items(met)| && Items(met)[Place(met, k)] == item
  {
    ItemsInOrder(met, k);
  }

  lemma {:induction false} PlacesGrow(met: seq<Met>, j: nat, k: nat, item: Item)
    requires j < k <= |met| && ItemsOf(j + 1, met[j]) == [item]
    ensures Place(met, j) < Place(met, k)
  {
    ItemsInOrder(met[..k], j);
    assert met[..k][..j] == met[..j] && met[..k][j] == met[j];
  }

  /** A policy stands before an image in the list exactly when its element comes first. */
  lemma {:induction false} PolicyPrecedes(met: seq<Met>, j: nat, policy: string, k: nat, src: string)
    requires j < |met| && k < |met| && IsPolicy(met[j], policy) && IsImage(met[k], src)
    ensures Place(met, j) < |Items(met)| && Items(met)[Place(met, j)] == CspMeta(policy)
    ensures Place(met, k) < |Items(met)| && Items(met)[Place(met, k)] == Image(k + 1, src)
    ensures Place(met, j) < Place(met, k) <==> j < k
  {
    ItemsOfPolicy(j + 1, met[j], policy);
    ItemsOfImage(k + 1, met[k], src);
    PlaceHolds(met, j, CspMeta(policy));
    PlaceHolds(met, k, Image(k + 1, src));
    if j < k {
      PlacesGrow(met, j, k, CspMeta(policy));
    } else if k < j {
      PlacesGrow(met, k, j, Image(k + 1, src));
    }
  }
}
