/** The patterns of the rule tables. Each is applied with Python's `re.match`: it is
    tried at the start of the key and need not reach its end. Only three shapes occur:
    a literal (`gc\.`), a literal whose last character is optional (`mem\.?`), and two
    literals around an unescaped `.` (`systemload.average`). A shape is decided by a
    hand-written start-anchored predicate (`Accepts`); the regular-expression reading of
    the same pattern (`Regex`, `Matches`) is kept alongside, and `AcceptsIsMatches`
    proves the two agree. */
module Pattern {

  /** One element of a regular expression in the fragment the tables use. */
  datatype Atom =
    | Char(c: char)        // the character itself (`a`, or the escaped `\.`)
    | AnyButNewline        // unescaped `.`
    | Optional(c: char)    // `c?`

  /** The three pattern shapes of the tables. */
  datatype Shape =
    | Literal(w: string)                   // `w`, every `.` escaped
    | OptionalLast(w: string, c: char)     // `w` followed by `c?`
    | AnyCharBetween(a: string, b: string) // `a`, an unescaped `.`, then `b`

  /** The regular expression a shape stands for. */
  function Regex(shape: Shape): (p: seq<Atom>)
  {
    match shape
    case Literal(w) => Lit(w)
    case OptionalLast(w, c) => Lit(w) + [Optional(c)]
    case AnyCharBetween(a, b) => Lit(a) + [AnyButNewline] + Lit(b)
  }

  /** The atoms spelling out `w` literally. */
  function Lit(w: string): (p: seq<Atom>)
    ensures |p| == |w|
    ensures forall i :: 0 <= i < |w| ==> p[i] == Char(w[i])
  {
    seq(|w|, i requires 0 <= i < |w| => Char(w[i]))
  }

  /** `re.match(p, s) is not None`: some prefix of `s` matches `p`. An optional atom is
      tried with its character first and without it second, as Python's backtracking
      does; which of the two succeeds does not change whether there is a match. */
  predicate Matches(p: seq<Atom>, s: string)
    decreases |p|
  {
    if |p| == 0 then true
    else match p[0]
      case Char(c) => |s| > 0 && s[0] == c && Matches(p[1..], s[1..])
      case AnyButNewline => |s| > 0 && s[0] != '\n' && Matches(p[1..], s[1..])
      case Optional(c) => (|s| > 0 && s[0] == c && Matches(p[1..], s[1..])) || Matches(p[1..], s)
  }

  /** The start-anchored test each shape performs, written by hand: a literal is a
      prefix test; an optional last character can always be skipped, so that shape is
      the prefix test for the word before it; the unescaped dot takes any one character
      but a newline. */
  predicate Accepts(shape: Shape, key: string)
  {
    match shape
    case Literal(w) => w <= key
    case OptionalLast(w, _) => w <= key
    case AnyCharBetween(a, b) => a <= key && |key| > |a| && key[|a|] != '\n' && b <= key[|a| + 1..]
  }

  /** A literal head matches exactly when it is a prefix of the key and the rest of the
      pattern matches what follows it. */
  lemma {:induction false} LitThen(w: string, rest: seq<Atom>, s: string)
    ensures Matches(Lit(w) + rest, s) <==> w <= s && Matches(rest, s[|w|..])
    decreases |w|
  {
    var p := Lit(w) + rest;
    if |w| == 0 {
      assert p == rest;
      assert s[0..] == s;
    } else {
      assert p[0] == Char(w[0]);
      assert p[1..] == Lit(w[1..]) + rest;
      if |s| > 0 {
        LitThen(w[1..], rest, s[1..]);
        if |s| >= |w| {
          assert s[1..][|w| - 1..] == s[|w|..];
        }
        assert w <= s <==> s[0] == w[0] && w[1..] <= s[1..];
      }
    }
  }

  /** The hand-written test of every shape is exactly the regular expression's
      `re.match` on every key. */
  lemma AcceptsIsMatches(shape: Shape, key: string)
    ensures Accepts(shape, key) <==> Matches(Regex(shape), key)
  {
    match shape
    case Literal(w) =>
      LitThen(w, [], key);
      assert Lit(w) + [] == Lit(w);
    case OptionalLast(w, c) =>
      LitThen(w, [Optional(c)], key);
      if w <= key {
        assert Matches([Optional(c)], key[|w|..]) by {
          assert [Optional(c)][1..] == [];
        }
      }
    case AnyCharBetween(a, b) =>
      var rest := [AnyButNewline] + Lit(b);
      assert Lit(a) + [AnyButNewline] + Lit(b) == Lit(a) + rest;
      LitThen(a, rest, key);
      if a <= key && |key| > |a| {
        var t := key[|a|..];
        assert rest[0] == AnyButNewline && rest[1..] == Lit(b);
        LitThen(b, [], t[1..]);
        assert Lit(b) + [] == Lit(b);
        assert t[1..] == key[|a| + 1..];
      }
  }
}
