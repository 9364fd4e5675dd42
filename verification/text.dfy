/** The string helpers the calculators use: character classes of the "C"
    locale, std::string::find, the `trim` member that strips blanks, and
    std::getline over a delimiter together with the `split` member built on it. */
module Text {
  import opened Outcomes

  predicate IsDigit(c: char) { '0' <= c <= '9' }

  predicate IsAlpha(c: char) { 'a' <= c <= 'z' || 'A' <= c <= 'Z' }

  predicate IsAlnum(c: char) { IsDigit(c) || IsAlpha(c) }

  /** `s[0]` on a std::string: the terminating NUL when the string is empty. */
  function Head(s: string): (c: char)
    ensures |s| > 0 ==> c == s[0]
    ensures |s| == 0 ==> c == '\0'
  {
    if |s| > 0 then s[0] else '\0'
  }

  /** `s.find(c)`: the first position of `c`, or None for npos. */
  function Find(s: string, c: char): (r: Option<nat>)
    ensures r.Some? ==> r.value < |s| && s[r.value] == c
  {
    if |s| == 0 then None
    else if s[0] == c then Some(0)
    else match Find(s[1..], c)
      case None => None
      case Some(k) => Some(k + 1)
  }

  /** Find reports the first occurrence, and npos only when there is none. */
  lemma {:induction false} FindIsFirst(s: string, c: char)
    ensures Find(s, c).None? ==> forall j :: 0 <= j < |s| ==> s[j] != c
    ensures Find(s, c).Some? ==> forall j :: 0 <= j < Find(s, c).value ==> s[j] != c
  {
    if |s| > 0 && s[0] != c {
      FindIsFirst(s[1..], c);
      assert forall j :: 1 <= j < |s| ==> s[j] == s[1..][j - 1];
    }
  }

  /** An occurrence with none before it is what find reports. */
  lemma {:induction false} FindFirst(s: string, c: char, k: nat)
    requires k < |s| && s[k] == c
    requires forall j :: 0 <= j < k ==> s[j] != c
    ensures Find(s, c) == Some(k)
  {
    if k > 0 {
      FindFirst(s[1..], c, k - 1);
    }
  }

  /** Without an occurrence find reports npos. */
  lemma {:induction false} FindNone(s: string, c: char)
    requires forall j :: 0 <= j < |s| ==> s[j] != c
    ensures Find(s, c) == None
  {
    if s != [] {
      FindNone(s[1..], c);
    }
  }

  /** `s.find(prefix) == 0`: the text begins with `prefix`. */
  predicate StartsWith(s: string, prefix: string)
  {
    |prefix| <= |s| && s[..|prefix|] == prefix
  }

  predicate AllBlank(s: string)
  {
    forall i :: 0 <= i < |s| ==> s[i] == ' '
  }

  /** `str.erase(0, str.find_first_not_of(" "))` */
  function TrimLeft(s: string): string
  {
    if |s| > 0 && s[0] == ' ' then TrimLeft(s[1..]) else s
  }

  /** `str.erase(str.find_last_not_of(" ") + 1)` */
  function TrimRight(s: string): string
  {
    if |s| > 0 && s[|s| - 1] == ' ' then TrimRight(s[..|s| - 1]) else s
  }

  /** The `trim` member: only the blank ' ' is stripped, at both ends. */
  function Trim(s: string): (r: string)
    ensures r == [] || (r[0] != ' ' && r[|r| - 1] != ' ')
  {
    TrimLeftDropsBlanks(s);
    TrimRightDropsBlanks(TrimLeft(s));
    TrimRight(TrimLeft(s))
  }

  /** TrimLeft removes a run of blanks from the front, and only that. */
  lemma {:induction false} TrimLeftDropsBlanks(s: string)
    ensures var r := TrimLeft(s);
      |r| <= |s| && r == s[|s| - |r|..] && AllBlank(s[..|s| - |r|]) && (r == [] || r[0] != ' ')
  {
    if |s| > 0 && s[0] == ' ' {
      var t, r := s[1..], TrimLeft(s[1..]);
      TrimLeftDropsBlanks(t);
      assert r == s[|s| - |r|..];
      forall i | 0 < i < |s| - |r| ensures s[i] == ' ' {
        assert s[i] == t[..|t| - |r|][i - 1];
      }
    }
  }

  /** TrimRight removes a run of blanks from the back, and only that. */
  lemma {:induction false} TrimRightDropsBlanks(s: string)
    ensures var r := TrimRight(s);
      |r| <= |s| && r == s[..|r|] && AllBlank(s[|r|..]) && (r == [] || r[|r| - 1] != ' ')
  {
    if |s| > 0 && s[|s| - 1] == ' ' {
      var t, r := s[..|s| - 1], TrimRight(s[..|s| - 1]);
      TrimRightDropsBlanks(t);
      assert r == s[..|r|];
      forall i | |r| <= i < |s| - 1 ensures s[i] == ' ' {
        assert s[i] == t[|r|..][i - |r|];
      }
    }
  }

  /** What trim keeps is one stretch of the text; everything it removes
      before and after that stretch is blanks, and the stretch neither
      starts nor ends with one. */
  lemma TrimKeepsMiddle(s: string)
    ensures var r := Trim(s);
      && (r == [] || (r[0] != ' ' && r[|r| - 1] != ' '))
      && exists a :: 0 <= a <= |s| - |r| && r == s[a..a + |r|]
                     && AllBlank(s[..a]) && AllBlank(s[a + |r|..])
  {
    var t := TrimLeft(s);
    var r := TrimRight(t);
    var a := |s| - |t|;
    TrimLeftDropsBlanks(s);
    TrimRightDropsBlanks(t);
    assert t == s[a..] && r == t[..|r|];
    assert r == s[a..a + |r|];
    assert AllBlank(s[..a]);
    assert s[a + |r|..] == t[|r|..];
    assert AllBlank(s[a + |r|..]);
    assert 0 <= a <= |s| - |r|;
  }

  /** The pieces successive `std::getline(stream, piece, d)` calls extract:
      text up to each delimiter, and a last piece only if it is not empty. */
  function Fields(s: string, d: char): (r: seq<string>)
    ensures r == [] <==> s == []
    decreases |s|
  {
    if s == [] then []
    else match Find(s, d)
      case None => [s]
      case Some(k) => [s[..k]] + Fields(s[k + 1..], d)
  }

  /** The pieces put back together with one delimiter between neighbours. */
  function Join(pieces: seq<string>, d: char): string
  {
    if |pieces| == 0 then ""
    else if |pieces| == 1 then pieces[0]
    else pieces[0] + [d] + Join(pieces[1..], d)
  }

  /** Nothing is lost by getline: joining the pieces gives the text back,
      except for a final delimiter, which ends the last piece; and no piece
      holds the delimiter. */
  lemma {:induction false} FieldsJoin(s: string, d: char)
    ensures s == Join(Fields(s, d), d) + (if s != [] && s[|s| - 1] == d then [d] else [])
    ensures forall i :: 0 <= i < |Fields(s, d)| ==> d !in Fields(s, d)[i]
    decreases |s|
  {
    FieldsFree(s, d);
    if s != [] {
      FindIsFirst(s, d);
      match Find(s, d)
      case None =>
        assert Fields(s, d) == [s];
      case Some(k) =>
        var rest := s[k + 1..];
        assert s == s[..k] + [d] + rest;
        FieldsJoin(rest, d);
        var fs := Fields(rest, d);
        assert Fields(s, d) == [s[..k]] + fs;
        if rest == [] {
          assert Fields(s, d) == [s[..k]];
          assert Join(Fields(s, d), d) == s[..k];
          assert s[|s| - 1] == d;
        } else {
          JoinAfterDelimiter(s[..k], fs, d, rest);
        }
    }
  }

  /** No piece getline extracts holds the delimiter. */
  lemma {:induction false} FieldsFree(s: string, d: char)
    ensures forall i :: 0 <= i < |Fields(s, d)| ==> d !in Fields(s, d)[i]
    decreases |s|
  {
    if s != [] {
      FindIsFirst(s, d);
      match Find(s, d)
      case None =>
        assert Fields(s, d) == [s];
      case Some(k) =>
        var fs := Fields(s[k + 1..], d);
        FieldsFree(s[k + 1..], d);
        assert Fields(s, d) == [s[..k]] + fs;
        assert d !in s[..k];
        assert forall i :: 1 <= i < |Fields(s, d)| ==> Fields(s, d)[i] == fs[i - 1];
    }
  }

  /** A piece and a delimiter before text that joins back from `ps`. */
  lemma JoinAfterDelimiter(p: string, ps: seq<string>, d: char, rest: string)
    requires rest != [] && ps != []
    requires rest == Join(ps, d) + (if rest[|rest| - 1] == d then [d] else [])
    ensures p + [d] + rest == Join([p] + ps, d) + (if rest[|rest| - 1] == d then [d] else [])
  {
    JoinCons(p, ps, d);
    AppendAssoc(p + [d], Join(ps, d), if rest[|rest| - 1] == d then [d] else []);
  }

  lemma JoinCons(p: string, ps: seq<string>, d: char)
    requires ps != []
    ensures Join([p] + ps, d) == p + [d] + Join(ps, d)
  {
    assert ([p] + ps)[1..] == ps;
  }

  /** The `split` member: each `std::getline` delivers the text up to the
      next delimiter (or the end) and consumes the delimiter; the piece is
      trimmed and appended. `rest` is what the stream still holds. */
  method Split(str: string, delimiter: char) returns (tokens: seq<string>)
    ensures tokens == TrimAll(Fields(str, delimiter))
  {
    tokens := [];
    var rest := str;
    while rest != []
      invariant tokens + TrimAll(Fields(rest, delimiter)) == TrimAll(Fields(str, delimiter))
      decreases |rest|
    {
      var (piece, after) := Getline(rest, delimiter);
      NextField(rest, delimiter);
      AppendAssoc(tokens, [Trim(piece)], TrimAll(Fields(after, delimiter)));
      tokens, rest := tokens + [Trim(piece)], after;
    }
    assert tokens + [] == tokens;
  }

  /** One `std::getline(stream, piece, d)` on a stream holding `s`: the text
      before the first delimiter, and what follows that delimiter; all of
      `s` and nothing when there is no delimiter. */
  function Getline(s: string, d: char): (string, string)
  {
    match Find(s, d)
    case None => (s, [])
    case Some(k) => (s[..k], s[k + 1..])
  }

  /** The pieces of a text are the first getline delivers, then the pieces
      of what remains. */
  lemma NextField(s: string, d: char)
    requires s != []
    ensures |Getline(s, d).1| < |s|
    ensures TrimAll(Fields(s, d)) == [Trim(Getline(s, d).0)] + TrimAll(Fields(Getline(s, d).1, d))
  {
    var (piece, after) := Getline(s, d);
    assert Fields(s, d) == [piece] + Fields(after, d);
    TrimAllCons(piece, Fields(after, d));
  }

  lemma AppendAssoc<T>(a: seq<T>, b: seq<T>, c: seq<T>)
    ensures a + (b + c) == (a + b) + c
  {
  }

  /** Each piece trimmed. */
  function TrimAll(pieces: seq<string>): (r: seq<string>)
    ensures |r| == |pieces|
  {
    if pieces == [] then [] else [Trim(pieces[0])] + TrimAll(pieces[1..])
  }

  lemma TrimAllCons(p: string, ps: seq<string>)
    ensures TrimAll([p] + ps) == [Trim(p)] + TrimAll(ps)
  {
    assert ([p] + ps)[1..] == ps;
  }


  /** The tokens put together, in order. */
  function Concat(tokens: seq<string>): string
  {
    if tokens == [] then [] else tokens[0] + Concat(tokens[1..])
  }

  lemma {:induction false} ConcatAppend(a: seq<string>, b: seq<string>)
    ensures Concat(a + b) == Concat(a) + Concat(b)
    decreases |a|
  {
    if a == [] {
      assert a + b == b;
    } else {
      assert (a + b)[1..] == a[1..] + b;
      ConcatAppend(a[1..], b);
    }
  }

  /** The length of the longest piece. */
  function MaxLength(pieces: seq<string>): (n: nat)
    ensures forall i :: 0 <= i < |pieces| ==> |pieces[i]| <= n
  {
    if pieces == [] then 0
    else
      var m := MaxLength(pieces[1..]);
      assert forall i :: 1 <= i < |pieces| ==> pieces[i] == pieces[1..][i - 1];
      if |pieces[0]| > m then |pieces[0]| else m
  }

  /** No trimmed getline piece is longer than the text it came from. */
  lemma {:induction false} PiecesNoLonger(s: string, d: char)
    ensures MaxLength(TrimAll(Fields(s, d))) <= |s|
    decreases |s|
  {
    if s != [] {
      match Find(s, d)
      case None =>
        TrimAllCons(s, []);
        TrimNoLonger(s);
      case Some(k) =>
        TrimNoLonger(s[..k]);
        PiecesNoLonger(s[k + 1..], d);
        TrimAllCons(s[..k], Fields(s[k + 1..], d));
    }
  }

  /** Text without a blank at either end is already trimmed. */
  lemma TrimUnpadded(s: string)
    requires s == [] || (s[0] != ' ' && s[|s| - 1] != ' ')
    ensures Trim(s) == s
  {
    assert TrimLeft(s) == s;
  }

  /** Trimming twice is trimming once. */
  lemma TrimIdempotent(s: string)
    ensures Trim(Trim(s)) == Trim(s)
  {
    TrimUnpadded(Trim(s));
  }

  lemma TrimNoLonger(s: string)
    ensures |Trim(s)| <= |s|
  {
    TrimLeftDropsBlanks(s);
    TrimRightDropsBlanks(TrimLeft(s));
  }

  /** Text appended after an occurrence does not move what find reports. */
  lemma {:induction false} FindInPrefix(s: string, more: string, c: char)
    requires Find(s, c).Some?
    ensures Find(s + more, c) == Find(s, c)
  {
    if s[0] != c {
      assert (s + more)[1..] == s[1..] + more;
      FindInPrefix(s[1..], more, c);
    }
  }
}
