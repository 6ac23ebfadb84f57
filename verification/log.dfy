/**
 * The one-line log parser: a line is split into whitespace-separated
 * tokens; the first two form the timestamp, the third is the level with its
 * colons removed, and the rest, joined by single spaces, is the message.
 */
module LogLine {

  /**
   * A parsed log record. The timestamp is kept as the text the datetime
   * parser accepted. The line-folding parser builds records of the same shape.
   */
  datatype Log = Log(datetime: string, level: string, message: string)

  /** `char::is_whitespace`: the characters with the Unicode White_Space property. */
  predicate IsSpace(c: char)
  {
    var n := c as int;
    (0x9 <= n <= 0xD) || n == 0x20 || n == 0x85 || n == 0xA0 || n == 0x1680
    || (0x2000 <= n <= 0x200A) || n == 0x2028 || n == 0x2029 || n == 0x202F
    || n == 0x205F || n == 0x3000
  }

  /** A token: non-empty, without whitespace. */
  predicate IsToken(t: string)
  {
    t != [] && forall j :: 0 <= j < |t| ==> !IsSpace(t[j])
  }

  /** The length of the run of non-whitespace characters `s` starts with. */
  function TokenEnd(s: string): (k: nat)
    ensures k <= |s|
    ensures k < |s| ==> IsSpace(s[k])
  {
    if s == [] || IsSpace(s[0]) then 0 else 1 + TokenEnd(s[1..])
  }

  lemma {:induction false} TokenEndIsFirst(s: string)
    ensures forall j :: 0 <= j < TokenEnd(s) ==> !IsSpace(s[j])
  {
    if s != [] && !IsSpace(s[0]) {
      TokenEndIsFirst(s[1..]);
    }
  }

  /** `split_whitespace`: the maximal runs of non-whitespace characters, in order. */
  function Tokens(s: string): seq<string>
    decreases |s|
  {
    if s == [] then []
    else if IsSpace(s[0]) then Tokens(s[1..])
    else
      var k := TokenEnd(s);
      [s[..k]] + Tokens(s[k..])
  }

  /** `join(" ")`: the tokens with one space between neighbours. */
  function Join(ts: seq<string>): string
  {
    if ts == [] then []
    else if |ts| == 1 then ts[0]
    else ts[0] + " " + Join(ts[1..])
  }

  /** `str::replace(s, ":", "")`: `s` with every colon deleted. */
  function RemoveColons(s: string): (r: string)
    ensures ':' !in r
    ensures |r| <= |s|
    ensures forall j :: 0 <= j < |r| ==> r[j] in s
    ensures ':' !in s ==> r == s
  {
    if s == [] then []
    else (if s[0] == ':' then [] else [s[0]]) + RemoveColons(s[1..])
  }

  /** Every character other than a colon is kept, as often as `s` has it. */
  lemma {:induction false} RemoveColonsKeeps(s: string)
    ensures forall c :: c != ':' ==> multiset(RemoveColons(s))[c] == multiset(s)[c]
    decreases |s|
  {
    if s != [] {
      RemoveColonsKeeps(s[1..]);
      assert s == [s[0]] + s[1..];
    }
  }

  /** Deleting colons works character by character, so it distributes over concatenation. */
  lemma {:induction false} RemoveColonsAppend(a: string, b: string)
    ensures RemoveColons(a + b) == RemoveColons(a) + RemoveColons(b)
    decreases |a|
  {
    if a == [] {
      assert a + b == b;
    } else {
      assert (a + b)[0] == a[0] && (a + b)[1..] == a[1..] + b;
      RemoveColonsAppend(a[1..], b);
    }
  }

  /** Every token is non-empty and holds no whitespace. */
  lemma {:induction false} TokensAreTokens(s: string)
    ensures forall i :: 0 <= i < |Tokens(s)| ==> IsToken(Tokens(s)[i])
    decreases |s|
  {
    if s != [] {
      if IsSpace(s[0]) {
        TokensAreTokens(s[1..]);
      } else {
        var k := TokenEnd(s);
        TokenEndIsFirst(s);
        TokensAreTokens(s[k..]);
      }
    }
  }

  /** A token ends where whitespace starts, even when that whitespace comes after it. */
  lemma {:induction false} TokenEndAppend(a: string, c: string)
    requires c != [] && IsSpace(c[0])
    ensures TokenEnd(a + c) == TokenEnd(a)
  {
    if a == [] {
      assert a + c == c;
    } else {
      assert (a + c)[0] == a[0];
      if !IsSpace(a[0]) {
        assert (a + c)[1..] == a[1..] + c;
        TokenEndAppend(a[1..], c);
      }
    }
  }

  /** A single token splits into itself. */
  lemma TokensOfToken(t: string)
    requires IsToken(t)
    ensures Tokens(t) == [t]
  {
    TokenEndIsFirst(t);
    assert t[..|t|] == t && t[|t|..] == [];
  }

  /** Splitting the joined tokens gives the tokens back. */
  lemma {:induction false} TokensJoin(ts: seq<string>)
    requires forall i :: 0 <= i < |ts| ==> IsToken(ts[i])
    ensures Tokens(Join(ts)) == ts
  {
    if |ts| == 1 {
      TokensOfToken(ts[0]);
    } else if |ts| > 1 {
      TokensOfToken(ts[0]);
      TokensAppendWhite(ts[0], ' ', Join(ts[1..]));
      TokensJoin(ts[1..]);
    }
  }

  /** The joined text is empty exactly when there is nothing to join. */
  lemma JoinEmpty(ts: seq<string>)
    requires forall i :: 0 <= i < |ts| ==> IsToken(ts[i])
    ensures Join(ts) == [] <==> ts == []
  {
    if ts != [] {
      assert |Join(ts)| >= |ts[0]|;
    }
  }

  /**
   * `Log::parse_from_str`. The line needs at least three tokens, or the
   * indexing panics, and the datetime parser (`accepts`) must accept the
   * first two joined by one space, or its `unwrap` panics.
   */
  function ParseFromStr(line: string, accepts: string -> bool): (r: Log)
    requires |Tokens(line)| >= 3
    requires accepts(Tokens(line)[0] + " " + Tokens(line)[1])
    ensures accepts(r.datetime)
    ensures r.datetime == Tokens(line)[0] + " " + Tokens(line)[1]
    ensures Tokens(r.datetime) == Tokens(line)[..2]
    ensures ':' !in r.level
    ensures r.level == RemoveColons(Tokens(line)[2])
    ensures r.message == Join(Tokens(line)[3..])
    ensures Tokens(r.message) == Tokens(line)[3..]
    ensures r.message == [] <==> |Tokens(line)| == 3
  {
    var v := Tokens(line);
    TokensAreTokens(line);
    TokensJoin(v[..2]);
    TokensJoin(v[3..]);
    JoinEmpty(v[3..]);
    assert Join(v[..2]) == v[0] + " " + v[1] by {
      assert v[..2][1..] == [v[1]];
    }
    Log(v[0] + " " + v[1], RemoveColons(v[2]), Join(v[3..]))
  }

  /** Whitespace made only of whitespace characters. */
  predicate IsGap(w: string)
  {
    w != [] && forall j :: 0 <= j < |w| ==> IsSpace(w[j])
  }

  /** Any run of whitespace between two texts separates them like a single space. */
  lemma {:induction false} TokensAppendGap(a: string, w: string, b: string)
    requires IsGap(w)
    ensures Tokens(a + w + b) == Tokens(a) + Tokens(b)
    decreases |w|
  {
    var rest := w[1..] + b;
    assert a + w + b == a + [w[0]] + rest;
    TokensAppendWhite(a, w[0], rest);
    if |w| == 1 {
      assert rest == b;
    } else {
      assert IsGap(w[1..]) by {
        forall j | 0 <= j < |w[1..]| ensures IsSpace(w[1..][j]) {
          assert w[1..][j] == w[j + 1];
        }
      }
      TokensAppendGap([], w[1..], b);
      assert [] + w[1..] + b == rest;
      assert Tokens(rest) == Tokens(b);
    }
  }

  /** One whitespace character separates the tokens of the texts on either side of it. */
  lemma {:induction false} TokensAppendWhite(a: string, c: char, b: string)
    requires IsSpace(c)
    ensures Tokens(a + [c] + b) == Tokens(a) + Tokens(b)
    decreases |a|
  {
    var s := a + [c] + b;
    if a == [] {
      assert s == [c] + b && s[1..] == b;
    } else if IsSpace(a[0]) {
      assert s[0] == a[0] && s[1..] == a[1..] + [c] + b;
      TokensAppendWhite(a[1..], c, b);
      assert Tokens(s) == Tokens(s[1..]);
    } else {
      var k := TokenEnd(a);
      TokenEndAppend(a, [c] + b);
      assert s == a + ([c] + b);
      assert s[0] == a[0] && s[..k] == a[..k];
      assert s[k..] == a[k..] + [c] + b;
      TokensAppendWhite(a[k..], c, b);
      assert Tokens(s) == [a[..k]] + Tokens(s[k..]);
      assert Tokens(a) == [a[..k]] + Tokens(a[k..]);
      assert [a[..k]] + (Tokens(a[k..]) + Tokens(b)) == [a[..k]] + Tokens(a[k..]) + Tokens(b);
    }
  }

  /**
   * Parsing a line written as tokens separated by single spaces returns the
   * first two tokens as the timestamp, the third without colons as the level,
   * and the rest verbatim as the message.
   */
  lemma ParseJoined(ts: seq<string>, accepts: string -> bool)
    requires |ts| >= 3 && forall i :: 0 <= i < |ts| ==> IsToken(ts[i])
    requires accepts(ts[0] + " " + ts[1])
    ensures Tokens(Join(ts)) == ts
    ensures ParseFromStr(Join(ts), accepts) == Log(ts[0] + " " + ts[1], RemoveColons(ts[2]), Join(ts[3..]))
  {
    TokensJoin(ts);
  }
}
