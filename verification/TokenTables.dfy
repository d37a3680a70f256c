/** Token lists in detail: the separators, the errors of failing calls, joining, and where tokens go. */
module TokenTables {
  import opened Common
  import opened TokenList

  lemma {:induction false} PiecesCons(c: char, rest: string)
    ensures Pieces([c] + rest) ==
            if IsSpace(c) then [""] + Pieces(rest) else [[c] + Pieces(rest)[0]] + Pieces(rest)[1..]
  {
    assert ([c] + rest)[1..] == rest;
  }

  /** The five separators and no others. */
  lemma {:induction false} SeparatorExact(c: char)
    ensures Parsed(['a', c, 'b']) ==
            if c as int in [0x20, 0x09, 0x0A, 0x0D, 0x0C] then ["a", "b"] else [['a', c, 'b']]
  {
    var s := ['a', c, 'b'];
    SpaceExact(c);
    assert s == ['a'] + ([c] + (['b'] + ""));
    PiecesCons('a', [c] + (['b'] + ""));
    PiecesCons(c, ['b'] + "");
    PiecesCons('b', "");
    assert Pieces("") == [""];
    if IsSpace(c) {
      assert Pieces(['b'] + "") == ["b"] && Pieces([c] + (['b'] + "")) == ["", "b"];
      assert Pieces(s) == [['a'] + ""] + ["b"] && ['a'] + "" == "a";
      assert Pieces(s) == ["a", "b"];
      KeepsAll(["a", "b"]);
    } else {
      assert Pieces(s) == [s];
      KeepsAll([s]);
    }
  }

  lemma SpaceExact(c: char)
    ensures IsSpace(c) <==> c as int in [0x20, 0x09, 0x0A, 0x0D, 0x0C]
  {
  }

  lemma {:induction false} KeepsAll(ts: seq<string>)
    requires TokenSet(ts)
    ensures InsertAll([], NonEmpty(ts)) == ts
  {
    NonEmptyAll(ts);
    assert [] + ts == ts;
    InsertAllDistinct([], ts);
  }

  /** The error of a failing call: the first bad argument's, which is empty or holds white space. */
  lemma {:induction false} FirstFaultExact(good: seq<string>, bad: string, more: seq<string>)
    requires AllValid(good) && !Valid(bad)
    ensures FirstFault(good + [bad] + more) == Some(if bad == "" then EmptyToken else WhitespaceInToken(bad))
  {
    var all := good + [bad] + more;
    if good == [] {
      assert all[0] == bad;
    } else {
      assert all[0] == good[0] && all[1..] == good[1..] + [bad] + more;
      FirstFaultExact(good[1..], bad, more);
    }
  }

  /** Tokens are joined by one space each. */
  lemma {:induction false} SerializeAppends(ts: seq<string>, token: string)
    ensures Serialize([]) == "" && Serialize([token]) == token
    ensures ts != [] ==> Serialize(ts + [token]) == Serialize(ts) + " " + token
  {
    if |ts| > 1 {
      assert (ts + [token])[1..] == ts[1..] + [token];
      SerializeAppends(ts[1..], token);
    } else if |ts| == 1 {
      assert (ts + [token])[1..] == [token];
    }
  }

  /** New tokens go to the end in the order given, and removal keeps the order of the rest. */
  lemma {:induction false} PositionsExact(ts: seq<string>, token: string, a: seq<string>, b: seq<string>)
    requires TokenSet(ts) && Valid(token)
    ensures Distinct(ts + a) && AllValid(a) ==> Apply(ts, Op.Add(a)).tokens == ts + a
    ensures token !in ts ==> Apply(ts, Op.Toggle(token, None)).tokens == ts + [token]
    ensures ts == a + [token] + b ==>
              && Apply(ts, Op.Toggle(token, None)).tokens == a + b
              && Apply(ts, Op.Remove([token])).tokens == a + b
  {
    if Distinct(ts + a) && AllValid(a) {
      InsertAllDistinct(ts, a);
    }
    assert AllValid([token]);
    if ts == a + [token] + b {
      assert ts[|a|] == token;
      DistinctParts(ts, a, [token] + b);
      DistinctParts([token] + b, [token], b);
      assert token in [token] + b && token in [token];
      DropToken(a, token, b);
    }
  }

  lemma {:induction false} DropToken(a: seq<string>, token: string, b: seq<string>)
    requires token !in a && token !in b
    ensures Without(a + [token] + b, [token]) == a + b
  {
    var ts := a + [token] + b;
    if a == [] {
      assert ts[0] == token && ts[1..] == b;
      WithoutExact(b, [token]);
    } else {
      assert ts[0] == a[0] && ts[1..] == a[1..] + [token] + b;
      DropToken(a[1..], token, b);
      assert [a[0]] + (a[1..] + b) == a + b;
    }
  }
}
