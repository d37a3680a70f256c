/**
 `DOMTokenList`: the ordered set of unique space-separated tokens, its parser and
 serializer, and the atomic mutators.
 */
module TokenList {
  import opened Common

  datatype Error = EmptyToken | WhitespaceInToken(token: string)

  predicate IsSpace(c: char) { c == ' ' || c == '\t' || c == '\n' || c == '\r' || c == '\U{000C}' }

  predicate HasSpace(s: string) { exists i :: 0 <= i < |s| && IsSpace(s[i]) }

  /** `validate_token`. */
  function Fault(token: string): Option<Error> {
    if token == "" then Some(EmptyToken)
    else if HasSpace(token) then Some(WhitespaceInToken(token))
    else None
  }

  predicate Valid(token: string) { token != "" && !HasSpace(token) }

  predicate Distinct(ts: seq<string>) { forall i, j :: 0 <= i < j < |ts| ==> ts[i] != ts[j] }

  predicate AllValid(ts: seq<string>) { forall i :: 0 <= i < |ts| ==> Valid(ts[i]) }

  /** What every list is that comes from parsing and the mutators. */
  predicate TokenSet(ts: seq<string>) { Distinct(ts) && AllValid(ts) }

  // ------------------------------------------------------------ parsing and serializing

  /** The pieces between separators, as `str::split` yields them. */
  function Pieces(s: string): (p: seq<string>)
    ensures |p| > 0
  {
    if s == "" then [""]
    else
      var rest := Pieces(s[1..]);
      if IsSpace(s[0]) then [""] + rest else [[s[0]] + rest[0]] + rest[1..]
  }

  function Insert(ts: seq<string>, token: string): seq<string> {
    if token in ts then ts else ts + [token]
  }

  /** Append the tokens not yet there, one by one. */
  function InsertAll(ts: seq<string>, more: seq<string>): seq<string>
    decreases |more|
  {
    if more == [] then ts else InsertAll(Insert(ts, more[0]), more[1..])
  }

  function NonEmpty(pieces: seq<string>): seq<string> {
    if pieces == [] then []
    else (if pieces[0] == "" then [] else [pieces[0]]) + NonEmpty(pieces[1..])
  }

  function Parsed(s: string): seq<string> { InsertAll([], NonEmpty(Pieces(s))) }

  function Serialize(ts: seq<string>): string {
    if ts == [] then "" else if |ts| == 1 then ts[0] else ts[0] + " " + Serialize(ts[1..])
  }

  method ParseTokenSet(input: string) returns (out: seq<string>)
    ensures out == Parsed(input)
  {
    var pieces := Pieces(input);
    out := [];
    for i := 0 to |pieces|
      invariant InsertAll(out, NonEmpty(pieces[i..])) == Parsed(input)
    {
      var token := pieces[i];
      assert pieces[i..][1..] == pieces[i + 1..];
      ghost var rest := NonEmpty(pieces[i + 1..]);
      if token == "" {
        assert NonEmpty(pieces[i..]) == rest;
        continue;
      }
      assert NonEmpty(pieces[i..])[1..] == rest;
      if token !in out {
        out := out + [token];
      }
    }
  }

  method SerializeTokenSet(tokens: seq<string>) returns (buf: string)
    ensures buf == Serialize(tokens)
  {
    buf := "";
    for i := 0 to |tokens|
      invariant buf + Tail(tokens, i) == Serialize(tokens)
    {
      ghost var before, rest := buf, Tail(tokens, i + 1);
      TailStep(tokens, i);
      if i > 0 {
        buf := buf + " ";
        Assoc(before, " ", tokens[i]);
      }
      buf := buf + tokens[i];
      assert buf == before + ((if i > 0 then " " else "") + tokens[i]);
      Assoc(before, (if i > 0 then " " else "") + tokens[i], rest);
    }
  }

  /** What is still to be written before token `i`. */
  ghost function Tail(tokens: seq<string>, i: nat): string
    requires i <= |tokens|
  {
    if i == 0 then Serialize(tokens) else if i == |tokens| then "" else " " + Serialize(tokens[i..])
  }

  lemma TailStep(tokens: seq<string>, i: nat)
    requires i < |tokens|
    ensures Tail(tokens, i) == (if i > 0 then " " else "") + tokens[i] + Tail(tokens, i + 1)
  {
    assert tokens[i..][1..] == tokens[i + 1..] && tokens[0..] == tokens;
  }

  // ---- what parsing finds

  /** `s[i..j]` is a maximal run of non-whitespace. */
  predicate Run(s: string, i: nat, j: nat) {
    && i < j <= |s| && !HasSpace(s[i..j])
    && (i == 0 || IsSpace(s[i - 1])) && (j == |s| || IsSpace(s[j]))
  }

  lemma {:induction false} InsertAllExact(ts: seq<string>, more: seq<string>)
    ensures ts <= InsertAll(ts, more)
    ensures forall w :: w in InsertAll(ts, more) <==> w in ts || w in more
    ensures Distinct(ts) ==> Distinct(InsertAll(ts, more))
    decreases |more|
  {
    if more != [] {
      InsertAllExact(Insert(ts, more[0]), more[1..]);
      assert more == [more[0]] + more[1..];
    }
  }

  lemma {:induction false} NonEmptyExact(pieces: seq<string>, w: string)
    ensures w in NonEmpty(pieces) <==> w in pieces && w != ""
  {
    if pieces != [] {
      NonEmptyExact(pieces[1..], w);
    }
  }

  lemma {:induction false} PiecesFree(s: string)
    ensures forall k :: 0 <= k < |Pieces(s)| ==> !HasSpace(Pieces(s)[k])
  {
    if s != "" {
      PiecesFree(s[1..]);
      var rest := Pieces(s[1..]);
      if !IsSpace(s[0]) {
        HasSpaceCons(s[0], rest[0]);
      }
    }
  }

  lemma HasSpaceCons(c: char, s: string)
    ensures HasSpace([c] + s) <==> IsSpace(c) || HasSpace(s)
  {
    if HasSpace(s) {
      var i :| 0 <= i < |s| && IsSpace(s[i]);
      assert ([c] + s)[i + 1] == s[i];
    }
    assert ([c] + s)[0] == c;
  }

  /** Parsing always yields a token set. */
  lemma ParseValid(s: string)
    ensures TokenSet(Parsed(s))
  {
    var pieces := Pieces(s);
    InsertAllExact([], NonEmpty(pieces));
    PiecesFree(s);
    forall i | 0 <= i < |Parsed(s)|
      ensures Valid(Parsed(s)[i])
    {
      NonEmptyExact(pieces, Parsed(s)[i]);
    }
  }

  // ---- round trip

  lemma {:induction false} PiecesOfToken(token: string)
    requires !HasSpace(token)
    ensures Pieces(token) == [token]
  {
    if token != "" {
      assert token == [token[0]] + token[1..];
      HasSpaceCons(token[0], token[1..]);
      PiecesOfToken(token[1..]);
    }
  }

  lemma {:induction false} PiecesSplit(token: string, rest: string)
    requires !HasSpace(token)
    ensures Pieces(token + " " + rest) == [token] + Pieces(rest)
  {
    var s := token + " " + rest;
    if token == "" {
      assert s[1..] == rest;
    } else {
      assert token == [token[0]] + token[1..];
      HasSpaceCons(token[0], token[1..]);
      PiecesSplit(token[1..], rest);
      assert s[1..] == token[1..] + " " + rest;
      assert s[0] == token[0];
    }
  }

  lemma {:induction false} SerializePieces(ts: seq<string>)
    requires AllValid(ts) && ts != []
    ensures Pieces(Serialize(ts)) == ts
  {
    if |ts| == 1 {
      PiecesOfToken(ts[0]);
    } else {
      SerializePieces(ts[1..]);
      PiecesSplit(ts[0], Serialize(ts[1..]));
      assert [ts[0]] + ts[1..] == ts;
    }
  }

  lemma {:induction false} NonEmptyAll(ts: seq<string>)
    requires AllValid(ts)
    ensures NonEmpty(ts) == ts
  {
    if ts != [] {
      NonEmptyAll(ts[1..]);
    }
  }

  lemma {:induction false} InsertAllDistinct(ts: seq<string>, more: seq<string>)
    requires Distinct(ts + more)
    ensures InsertAll(ts, more) == ts + more
    decreases |more|
  {
    if more != [] {
      var all := ts + more;
      assert more[0] !in ts by {
        assert all[|ts|] == more[0];
        assert forall i :: 0 <= i < |ts| ==> all[i] == ts[i];
      }
      assert (ts + [more[0]]) + more[1..] == ts + more;
      InsertAllDistinct(ts + [more[0]], more[1..]);
    }
  }

  /** A list survives serializing and parsing exactly when it is a token set. */
  lemma {:induction false} RoundTrip(ts: seq<string>)
    ensures Parsed(Serialize(ts)) == ts <==> TokenSet(ts)
  {
    ParseValid(Serialize(ts));
    if TokenSet(ts) && ts != [] {
      SerializePieces(ts);
      NonEmptyAll(ts);
      assert [] + ts == ts;
      InsertAllDistinct([], ts);
    }
  }

  // ---- the tokens are the maximal runs

  lemma {:induction false} FirstPiece(s: string) returns (n: nat)
    ensures n <= |s| && Pieces(s)[0] == s[..n] && !HasSpace(s[..n]) && (n == |s| || IsSpace(s[n]))
    ensures Pieces(s)[1..] == if n == |s| then [] else Pieces(s[n + 1..])
  {
    n := 0;
    if s != "" && !IsSpace(s[0]) {
      var m := FirstPiece(s[1..]);
      n := m + 1;
      assert s[..n] == [s[0]] + s[1..][..m];
      HasSpaceCons(s[0], s[1..][..m]);
      assert n < |s| ==> s[1..][m + 1..] == s[n + 1..];
    }
  }

  ghost predicate HasRun(s: string, w: string) { exists i: nat, j: nat :: Run(s, i, j) && s[i..j] == w }

  lemma RunShift(s: string, n: nat, i: nat, j: nat)
    requires n < |s| && IsSpace(s[n]) && i <= j <= |s| - n - 1
    ensures s[n + 1..][i..j] == s[n + 1 + i..n + 1 + j]
    ensures Run(s[n + 1..], i, j) <==> Run(s, n + 1 + i, n + 1 + j)
  {
  }

  /** A run starts at the first piece or beyond the separator after it. */
  lemma RunStarts(s: string, n: nat, i: nat, j: nat)
    requires n <= |s| && !HasSpace(s[..n]) && (n == |s| || IsSpace(s[n])) && Run(s, i, j)
    ensures (i == 0 && j == n) || (n < i && n < |s|)
  {
    assert forall k :: 0 <= k < n ==> !IsSpace(s[..n][k]);
    assert forall k :: 0 <= k < j - i ==> !IsSpace(s[i..j][k]);
  }

  lemma {:induction false} PieceIsRun(s: string, w: string)
    requires w != "" && w in Pieces(s)
    ensures HasRun(s, w)
    decreases |s|
  {
    var n := FirstPiece(s);
    assert Pieces(s) == [Pieces(s)[0]] + Pieces(s)[1..];
    if w == s[..n] {
      assert s[0..n] == s[..n] && Run(s, 0, n);
    } else {
      PieceIsRun(s[n + 1..], w);
      var i: nat, j: nat :| Run(s[n + 1..], i, j) && s[n + 1..][i..j] == w;
      RunShift(s, n, i, j);
      assert Run(s, n + 1 + i, n + 1 + j);
    }
  }

  lemma {:induction false} RunIsPiece(s: string, i: nat, j: nat, w: string)
    requires Run(s, i, j) && s[i..j] == w
    ensures w in Pieces(s)
    decreases |s|
  {
    var n := FirstPiece(s);
    RunStarts(s, n, i, j);
    if i == 0 {
      assert s[i..j] == s[..n];
      assert w == Pieces(s)[0];
    } else {
      var k, l, rest := i - n - 1, j - n - 1, s[n + 1..];
      assert Run(rest, k, l) && rest[k..l] == w by {
        RunShift(s, n, k, l);
      }
      RunIsPiece(rest, k, l, w);
      InTail(Pieces(s), w);
    }
  }

  lemma InTail(pieces: seq<string>, w: string)
    requires pieces != [] && w in pieces[1..]
    ensures w in pieces
  {
  }

  lemma {:induction false} PiecesRuns(s: string, w: string)
    requires w != ""
    ensures w in Pieces(s) <==> HasRun(s, w)
  {
    if w in Pieces(s) {
      PieceIsRun(s, w);
    }
    if HasRun(s, w) {
      var i: nat, j: nat :| Run(s, i, j) && s[i..j] == w;
      RunIsPiece(s, i, j, w);
    }
  }

  /** Parsing finds exactly the maximal runs of non-whitespace. */
  lemma ParseExact(s: string, w: string)
    ensures w in Parsed(s) <==> w != "" && HasRun(s, w)
  {
    InsertAllExact([], NonEmpty(Pieces(s)));
    NonEmptyExact(Pieces(s), w);
    if w != "" {
      PiecesRuns(s, w);
    }
  }

  // ------------------------------------------------------------ mutators

  /** The first argument that fails validation decides the error. */
  function FirstFault(tokens: seq<string>): (e: Option<Error>)
    ensures e.None? <==> AllValid(tokens)
  {
    if tokens == [] then None
    else if Fault(tokens[0]).Some? then Fault(tokens[0])
    else FirstFault(tokens[1..])
  }

  function Without(ts: seq<string>, dropped: seq<string>): seq<string> {
    if ts == [] then []
    else (if ts[0] in dropped then [] else [ts[0]]) + Without(ts[1..], dropped)
  }

  function IndexOf(ts: seq<string>, token: string): (i: nat)
    requires token in ts
    ensures i < |ts| && ts[i] == token && token !in ts[..i]
  {
    if ts[0] == token then 0
    else
      var i := IndexOf(ts[1..], token);
      assert ts[..i + 1] == [ts[0]] + ts[1..][..i];
      1 + i
  }

  function Replaced(ts: seq<string>, prev: string, next: string): seq<string> {
    if prev !in ts || prev == next then ts
    else
      var at := IndexOf(ts, prev);
      if next in ts then ts[..at] + ts[at + 1..] else ts[at := next]
  }

  datatype Op =
    | Add(tokens: seq<string>)
    | Remove(tokens: seq<string>)
    | Toggle(token: string, force: Option<bool>)
    | Replace(prev: string, next: string)

  datatype Answer = Done | Flag(value: bool) | Failed(error: Error)

  datatype Result = Result(tokens: seq<string>, answer: Answer)

  function Arguments(op: Op): seq<string> {
    match op
    case Add(tokens) => tokens
    case Remove(tokens) => tokens
    case Toggle(token, _) => [token]
    case Replace(prev, next) => [prev, next]
  }

  function Present(ts: seq<string>, token: string, force: Option<bool>): bool {
    if force.Some? then force.value else token !in ts
  }

  function Apply(ts: seq<string>, op: Op): Result {
    var fault := FirstFault(Arguments(op));
    if fault.Some? then Result(ts, Failed(fault.value))
    else
      match op
      case Add(tokens) => Result(InsertAll(ts, tokens), Done)
      case Remove(tokens) => Result(Without(ts, tokens), Done)
      case Toggle(token, force) =>
        var wanted := Present(ts, token, force);
        Result(if wanted then Insert(ts, token) else Without(ts, [token]), Flag(wanted))
      case Replace(prev, next) => Result(Replaced(ts, prev, next), Flag(prev in ts))
  }

  lemma {:induction false} WithoutExact(ts: seq<string>, dropped: seq<string>)
    ensures forall w :: w in Without(ts, dropped) <==> w in ts && w !in dropped
    ensures TokenSet(ts) ==> TokenSet(Without(ts, dropped))
    ensures (forall w :: w in dropped ==> w !in ts) ==> Without(ts, dropped) == ts
  {
    if ts != [] {
      WithoutExact(ts[1..], dropped);
      var rest := Without(ts[1..], dropped);
      assert ts == [ts[0]] + ts[1..];
      assert TokenSet(ts) ==> TokenSet(ts[1..]);
      assert TokenSet(ts) ==> forall k :: 0 <= k < |ts[1..]| ==> ts[1..][k] == ts[k + 1] != ts[0];
    }
  }

  lemma InsertKeeps(ts: seq<string>, token: string)
    requires TokenSet(ts) && Valid(token)
    ensures TokenSet(Insert(ts, token))
  {
  }

  lemma {:induction false} InsertAllKeeps(ts: seq<string>, more: seq<string>)
    requires TokenSet(ts) && AllValid(more)
    ensures TokenSet(InsertAll(ts, more))
    decreases |more|
  {
    if more != [] {
      InsertKeeps(ts, more[0]);
      InsertAllKeeps(Insert(ts, more[0]), more[1..]);
    }
  }

  lemma ReplacedKeeps(ts: seq<string>, prev: string, next: string)
    requires TokenSet(ts) && Valid(next)
    ensures TokenSet(Replaced(ts, prev, next))
    ensures forall w :: w in Replaced(ts, prev, next) <==>
              if prev in ts then w == next || (w in ts && w != prev) else w in ts
  {
    if prev in ts && prev != next {
      var a, b := Around(ts, prev);
      ReplacedAt(a, prev, b, next);
      PartsValid(a, prev, b);
      if next in a || next in b {
        JoinParts(a, b);
      } else {
        InsertBetween(a, next, b);
      }
      SwapMembers(a, prev, b, next);
    }
  }

  lemma InsertBetween(a: seq<string>, next: string, b: seq<string>)
    requires TokenSet(a) && TokenSet(b) && Valid(next) && next !in a && next !in b
    requires forall w :: w in a ==> w !in b
    ensures TokenSet(a + ([next] + b))
  {
    JoinParts([next], b);
    JoinParts(a, [next] + b);
  }

  lemma SwapMembers(a: seq<string>, prev: string, b: seq<string>, next: string)
    requires prev !in a && prev !in b && prev != next
    ensures forall w :: w in a + ([next] + b) <==> w == next || (w in a + ([prev] + b) && w != prev)
    ensures forall w :: w in a + b <==> w in a + ([prev] + b) && w != prev
  {
    assert forall w :: w in a + ([prev] + b) <==> w in a || w == prev || w in b;
  }

  lemma PartsValid(a: seq<string>, x: string, b: seq<string>)
    requires AllValid(a + ([x] + b))
    ensures AllValid(a) && AllValid(b)
  {
    var ts := a + ([x] + b);
    assert forall i :: 0 <= i < |a| ==> a[i] == ts[i];
    forall i | 0 <= i < |b|
      ensures Valid(b[i])
    {
      assert ts[|a| + 1 + i] == b[i];
    }
  }

  lemma JoinParts(a: seq<string>, b: seq<string>)
    requires TokenSet(a) && TokenSet(b) && forall w :: w in a ==> w !in b
    ensures TokenSet(a + b)
  {
    var ts := a + b;
    forall i, j | 0 <= i < j < |ts|
      ensures ts[i] != ts[j]
    {
      if j < |a| {
        assert ts[i] == a[i] && ts[j] == a[j];
      } else if i < |a| {
        assert ts[i] in a && ts[j] == b[j - |a|] && ts[j] in b;
      } else {
        assert ts[i] == b[i - |a|] && ts[j] == b[j - |a|];
      }
    }
  }

  /** Every operation keeps the list a token set, and one that fails keeps the list. */
  lemma ApplyKeeps(ts: seq<string>, op: Op)
    requires TokenSet(ts)
    ensures TokenSet(Apply(ts, op).tokens)
    ensures Apply(ts, op).answer.Failed? <==> !AllValid(Arguments(op))
    ensures Apply(ts, op).answer.Failed? ==> Apply(ts, op).tokens == ts
  {
    if AllValid(Arguments(op)) {
      match op
      case Add(tokens) => InsertAllKeeps(ts, tokens);
      case Remove(tokens) => WithoutExact(ts, tokens);
      case Toggle(token, force) =>
        assert Valid(Arguments(op)[0]);
        InsertKeeps(ts, token);
        WithoutExact(ts, [token]);
      case Replace(prev, next) =>
        assert Valid(Arguments(op)[1]);
        ReplacedKeeps(ts, prev, next);
    }
  }

  /** Membership after a successful operation, and the answer that goes with it. */
  ghost predicate Meets(ts: seq<string>, op: Op, r: Result) {
    match op
    case Add(tokens) => ts <= r.tokens && forall w :: w in r.tokens <==> w in ts || w in tokens
    case Remove(tokens) => forall w :: w in r.tokens <==> w in ts && w !in tokens
    case Toggle(token, force) =>
      && r.answer == Flag(token in r.tokens) && (force.Some? ==> (token in r.tokens) == force.value)
      && (force.None? ==> (token in r.tokens) != (token in ts))
      && forall w :: w != token ==> (w in r.tokens <==> w in ts)
    case Replace(prev, next) =>
      && r.answer == Flag(prev in ts)
      && forall w :: w in r.tokens <==> if prev in ts then w == next || (w in ts && w != prev) else w in ts
  }

  lemma ApplyMeets(ts: seq<string>, op: Op)
    requires TokenSet(ts) && AllValid(Arguments(op))
    ensures Meets(ts, op, Apply(ts, op))
  {
    match op
    case Add(tokens) => InsertAllExact(ts, tokens);
    case Remove(tokens) => WithoutExact(ts, tokens);
    case Toggle(token, force) => WithoutExact(ts, [token]);
    case Replace(prev, next) =>
      assert Valid(Arguments(op)[1]);
      ReplacedKeeps(ts, prev, next);
  }

  function RunOps(ts: seq<string>, ops: seq<Op>): seq<string>
    decreases |ops|
  {
    if ops == [] then ts else RunOps(Apply(ts, ops[0]).tokens, ops[1..])
  }

  /** Whatever is done to a parsed list, it stays a token set and survives its own serialization. */
  lemma {:induction false} RunKeeps(ts: seq<string>, ops: seq<Op>)
    requires TokenSet(ts)
    ensures TokenSet(RunOps(ts, ops))
    ensures Parsed(Serialize(RunOps(ts, ops))) == RunOps(ts, ops)
    decreases |ops|
  {
    if ops == [] {
      RoundTrip(ts);
    } else {
      ApplyKeeps(ts, ops[0]);
      RunKeeps(Apply(ts, ops[0]).tokens, ops[1..]);
    }
  }

  lemma {:induction false} ParsedRun(value: string, ops: seq<Op>)
    ensures TokenSet(RunOps(Parsed(value), ops))
    ensures Parsed(Serialize(RunOps(Parsed(value), ops))) == RunOps(Parsed(value), ops)
  {
    ParseValid(value);
    RunKeeps(Parsed(value), ops);
  }

  // ---- replace against the DOM Standard

  /**
   Replacing within an ordered set as the Infra Standard defines it: the first of the two
   that occurs becomes `next`, every other occurrence of either is removed.
   */
  function StandardReplaced(ts: seq<string>, prev: string, next: string): seq<string> {
    if ts == [] then []
    else if ts[0] == prev || ts[0] == next then [next] + Without(ts[1..], [prev, next])
    else [ts[0]] + StandardReplaced(ts[1..], prev, next)
  }

  lemma {:induction false} Untouched(ts: seq<string>, prev: string, next: string)
    requires prev !in ts && next !in ts
    ensures Without(ts, [prev, next]) == ts
  {
    if ts != [] {
      Untouched(ts[1..], prev, next);
      assert ts[0] in ts;
    }
  }

  /** Dropping the only one of the two tokens that a list holds. */
  lemma {:induction false} DropOne(a: seq<string>, x: string, b: seq<string>, prev: string, next: string)
    requires prev !in a && next !in a && prev !in b && next !in b && (x == prev || x == next)
    ensures Without(a + ([x] + b), [prev, next]) == a + b
  {
    var ts := a + ([x] + b);
    if a == [] {
      assert ts[0] == x && ts[1..] == b;
      Untouched(b, prev, next);
    } else {
      assert ts[0] == a[0] && ts[1..] == a[1..] + ([x] + b);
      DropOne(a[1..], x, b, prev, next);
      assert [a[0]] + (a[1..] + b) == a + b;
    }
  }

  lemma {:induction false} StandardAt(a: seq<string>, x: string, b: seq<string>, prev: string, next: string)
    requires prev !in a && next !in a && (x == prev || x == next)
    ensures StandardReplaced(a + ([x] + b), prev, next) == a + ([next] + Without(b, [prev, next]))
  {
    var ts := a + ([x] + b);
    if a == [] {
      assert ts[0] == x && ts[1..] == b;
    } else {
      assert ts[0] == a[0] && ts[1..] == a[1..] + ([x] + b);
      StandardAt(a[1..], x, b, prev, next);
      assert [a[0]] + (a[1..] + ([next] + Without(b, [prev, next]))) == a + ([next] + Without(b, [prev, next]));
    }
  }

  lemma {:induction false} IndexAt(a: seq<string>, x: string, b: seq<string>)
    requires x !in a
    ensures IndexOf(a + ([x] + b), x) == |a|
  {
    var ts := a + ([x] + b);
    if a == [] {
      assert ts[0] == x;
    } else {
      assert ts[0] == a[0] && ts[1..] == a[1..] + ([x] + b);
      assert ts[|a|] == x;
      IndexAt(a[1..], x, b);
    }
  }

  /** What the source does, in terms of the parts around the replaced token. */
  lemma ReplacedAt(a: seq<string>, prev: string, b: seq<string>, next: string)
    requires prev !in a && prev != next
    ensures Replaced(a + ([prev] + b), prev, next) == if next in a || next in b then a + b else a + ([next] + b)
  {
    var ts := a + ([prev] + b);
    IndexAt(a, prev, b);
    assert ts[|a|] == prev && ts[..|a|] == a && ts[|a| + 1..] == b;
    assert next in ts <==> next in a || next in b;
    assert ts[|a| := next] == a + ([next] + b);
  }

  lemma {:induction false} ReplaceFresh(a: seq<string>, prev: string, b: seq<string>, next: string)
    requires prev !in a && prev !in b && next !in a && next !in b
    ensures Replaced(a + ([prev] + b), prev, next) == StandardReplaced(a + ([prev] + b), prev, next)
  {
    StandardAt(a, prev, b, prev, next);
    Untouched(b, prev, next);
    if prev != next {
      ReplacedAt(a, prev, b, next);
    }
  }

  lemma Regroup(a: seq<string>, x: string, b: seq<string>, rest: seq<string>)
    ensures a + ([x] + (b + rest)) == (a + [x] + b) + rest
  {
  }

  lemma {:induction false} ReplaceLater(a: seq<string>, next: string, b: seq<string>, prev: string, c: seq<string>)
    requires prev !in a && prev !in b && prev !in c && next !in a && next !in b && next !in c && prev != next
    ensures var ts := a + ([next] + (b + ([prev] + c)));
            Replaced(ts, prev, next) == StandardReplaced(ts, prev, next)
  {
    var ts := a + ([next] + (b + ([prev] + c)));
    var front := a + [next] + b;
    Regroup(a, next, b, [prev] + c);
    Regroup(a, next, b, c);
    StandardAt(a, next, b + ([prev] + c), prev, next);
    DropOne(b, prev, c, prev, next);
    ReplacedAt(front, prev, c, next);
    assert next in front by {
      assert front[|a|] == next;
    }
  }

  lemma {:induction false} ReplaceEarlier(a: seq<string>, prev: string, b: seq<string>, next: string, c: seq<string>)
    requires prev !in a && prev !in b && prev !in c && next !in a && next !in b && next !in c && prev != next
    ensures var ts := a + ([prev] + (b + ([next] + c)));
            Replaced(ts, prev, next) == StandardReplaced(ts, prev, next) <==> b == []
  {
    var tail := b + ([next] + c);
    ReplacedAt(a, prev, tail, next);
    StandardAt(a, prev, tail, prev, next);
    DropOne(b, next, c, prev, next);
    assert tail[|b|] == next;
    assert (a + tail)[|a|] == tail[0] && (a + ([next] + (b + c)))[|a|] == next;
    if b == [] {
      assert tail == [next] + (b + c);
    } else {
      assert tail[0] == b[0] && b[0] in b;
    }
  }

  /** A duplicate-free list around one of its tokens. */
  lemma Around(ts: seq<string>, x: string) returns (a: seq<string>, b: seq<string>)
    requires Distinct(ts) && x in ts
    ensures ts == a + ([x] + b) && |a| == IndexOf(ts, x)
    ensures x !in a && x !in b && Distinct(a) && Distinct(b)
    ensures forall w :: w in a ==> w !in b
  {
    var at := IndexOf(ts, x);
    a, b := ts[..at], ts[at + 1..];
    assert ts == a + ([x] + b);
    DistinctParts(ts, a, [x] + b);
    DistinctParts([x] + b, [x], b);
    assert x in [x] + b && forall w :: w in b ==> w in [x] + b;
  }

  lemma DistinctParts(ts: seq<string>, a: seq<string>, b: seq<string>)
    requires ts == a + b && Distinct(ts)
    ensures Distinct(a) && Distinct(b)
    ensures forall w :: w in a ==> w !in b
  {
    forall i, j | 0 <= i < j < |b|
      ensures b[i] != b[j]
    {
      assert ts[|a| + i] == b[i] && ts[|a| + j] == b[j];
    }
    forall i, j | 0 <= i < |a| && 0 <= j < |b|
      ensures a[i] != b[j]
    {
      assert ts[i] == a[i] && ts[|a| + j] == b[j];
    }
    assert forall i :: 0 <= i < |a| ==> ts[i] == a[i];
  }

  /**
   The source keeps the position of an already present `next`; the standard takes the
   earlier position. They agree exactly when no token between them would be passed over.
   */
  lemma {:induction false} ReplaceAgreesWithStandard(ts: seq<string>, prev: string, next: string)
    requires Distinct(ts) && prev in ts
    ensures Replaced(ts, prev, next) == StandardReplaced(ts, prev, next) <==>
            next !in ts || IndexOf(ts, next) <= IndexOf(ts, prev) + 1
  {
    var a, b := Around(ts, prev);
    assert next in ts <==> next in a || next == prev || next in b;
    if next in a {
      var front, middle := Around(a, next);
      Assoc(front, [next] + middle, [prev] + b);
      Assoc([next], middle, [prev] + b);
      ReplaceLater(front, next, middle, prev, b);
      IndexAt(front, next, middle + ([prev] + b));
    } else if next in b {
      var middle, back := Around(b, next);
      ReplaceEarlier(a, prev, middle, next, back);
      NextIndex(a, prev, middle, next, back);
    } else {
      ReplaceFresh(a, prev, b, next);
    }
  }

  lemma {:induction false} NextIndex(a: seq<string>, prev: string, middle: seq<string>, next: string, back: seq<string>)
    requires next !in a && next != prev && next !in middle
    ensures IndexOf(a + ([prev] + (middle + ([next] + back))), next) == |a| + 1 + |middle|
  {
    var front := a + [prev] + middle;
    Regroup(a, prev, middle, [next] + back);
    IndexAt(front, next, back);
  }

  /** A list on which the two differ. */
  lemma ReplaceDiffers()
    ensures Replaced(["a", "b", "c"], "a", "c") == ["b", "c"]
    ensures StandardReplaced(["a", "b", "c"], "a", "c") == ["c", "b"]
  {
    var ts := ["a", "b", "c"];
    assert ts[1..] == ["b", "c"] && ts[1..][1..] == ["c"] && ["c"][1..] == [];
    assert IndexOf(ts, "a") == 0;
    assert ts[..0] + ts[1..] == ["b", "c"];
    assert Without(["c"], ["a", "c"]) == [];
    assert Without(["b", "c"], ["a", "c"]) == ["b"];
  }

  // ------------------------------------------------------------ the class

  method FindFault(tokens: seq<string>) returns (e: Option<Error>)
    ensures e == FirstFault(tokens)
  {
    for i := 0 to |tokens|
      invariant FirstFault(tokens[i..]) == FirstFault(tokens)
    {
      assert tokens[i..][1..] == tokens[i + 1..];
      if Fault(tokens[i]).Some? {
        return Fault(tokens[i]);
      }
    }
    return None;
  }

  method Retain(ts: seq<string>, dropped: seq<string>) returns (out: seq<string>)
    ensures out == Without(ts, dropped)
  {
    out := [];
    for i := 0 to |ts|
      invariant out + Without(ts[i..], dropped) == Without(ts, dropped)
    {
      assert ts[i..][1..] == ts[i + 1..];
      if ts[i] !in dropped {
        out := out + [ts[i]];
      }
    }
  }

  method Position(ts: seq<string>, token: string) returns (at: Option<nat>)
    ensures at == if token in ts then Some(IndexOf(ts, token)) else None
  {
    for i := 0 to |ts|
      invariant token !in ts[..i]
    {
      if ts[i] == token {
        FirstIsIndex(ts, token, i);
        return Some(i);
      }
      assert ts[..i + 1] == ts[..i] + [ts[i]];
    }
    assert ts[..|ts|] == ts;
    return None;
  }

  lemma {:induction false} FirstIsIndex(ts: seq<string>, token: string, i: nat)
    requires i < |ts| && ts[i] == token && token !in ts[..i]
    ensures IndexOf(ts, token) == i
  {
    var k := IndexOf(ts, token);
    assert forall m :: 0 <= m < i ==> ts[..i][m] != token;
    assert forall m :: 0 <= m < k ==> ts[..k][m] != token;
  }

  /** A list built from given tokens is a token set exactly when all of them are valid. */
  lemma {:induction false} FromTokensValid(given: seq<string>)
    ensures TokenSet(InsertAll([], given)) <==> AllValid(given)
  {
    var ts := InsertAll([], given);
    InsertAllExact([], given);
    if TokenSet(ts) {
      forall i | 0 <= i < |given|
        ensures Valid(given[i])
      {
        assert given[i] in ts;
      }
    }
    if AllValid(given) {
      InsertAllKeeps([], given);
    }
  }

  /** `DomTokenList`; a result of `None` is success. */
  class DomTokenList {
    var tokens: seq<string>

    constructor Parse(value: string)
      ensures tokens == Parsed(value) && TokenSet(tokens)
    {
      var parsed := ParseTokenSet(value);
      tokens := parsed;
      ParseValid(value);
    }

    constructor Empty()
      ensures tokens == [] && TokenSet(tokens)
    {
      tokens := [];
    }

    /** Duplicates are dropped; the tokens themselves are not validated. */
    constructor FromTokens(given: seq<string>)
      ensures tokens == InsertAll([], given)
    {
      var seen: seq<string> := [];
      for i := 0 to |given|
        invariant InsertAll(seen, given[i..]) == InsertAll([], given)
      {
        assert given[i..][1..] == given[i + 1..];
        if given[i] !in seen {
          seen := seen + [given[i]];
        }
      }
      tokens := seen;
    }

    method Contains(token: string) returns (present: bool, error: Option<Error>)
      ensures error == Fault(token)
      ensures error.None? ==> present == (token in tokens)
    {
      error := Fault(token);
      present := error.None? && token in tokens;
    }

    method Add(args: seq<string>) returns (error: Option<Error>)
      modifies this
      ensures Apply(old(tokens), Op.Add(args)) == Result(tokens, if error.Some? then Failed(error.value) else Done)
    {
      error := FindFault(args);
      if error.Some? {
        return;
      }
      for i := 0 to |args|
        invariant InsertAll(tokens, args[i..]) == InsertAll(old(tokens), args)
      {
        assert args[i..][1..] == args[i + 1..];
        if args[i] !in tokens {
          tokens := tokens + [args[i]];
        }
      }
    }

    method Remove(args: seq<string>) returns (error: Option<Error>)
      modifies this
      ensures Apply(old(tokens), Op.Remove(args)) == Result(tokens, if error.Some? then Failed(error.value) else Done)
    {
      error := FindFault(args);
      if error.Some? {
        return;
      }
      tokens := Retain(tokens, args);
    }

    method Toggle(token: string, force: Option<bool>) returns (wanted: bool, error: Option<Error>)
      modifies this
      ensures Apply(old(tokens), Op.Toggle(token, force)) ==
              Result(tokens, if error.Some? then Failed(error.value) else Flag(wanted))
    {
      wanted := false;
      error := FindFault([token]);
      if error.Some? {
        return;
      }
      var present := token in tokens;
      wanted := match force case None => !present case Some(f) => f;
      if wanted && !present {
        tokens := tokens + [token];
      } else if !wanted && present {
        tokens := Retain(tokens, [token]);
      } else {
        WithoutExact(tokens, [token]);
      }
    }

    method Replace(prev: string, next: string) returns (found: bool, error: Option<Error>)
      modifies this
      ensures Apply(old(tokens), Op.Replace(prev, next)) ==
              Result(tokens, if error.Some? then Failed(error.value) else Flag(found))
    {
      found := false;
      error := FindFault([prev, next]);
      if error.Some? {
        return;
      }
      var at := Position(tokens, prev);
      if at.None? {
        return;
      }
      found := true;
      if prev == next {
        return;
      }
      if next in tokens {
        tokens := tokens[..at.value] + tokens[at.value + 1..];
        return;
      }
      tokens := tokens[at.value := next];
    }
  }
}
