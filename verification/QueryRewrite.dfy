/** Rewriting a query with '?' marks and backquotes for Postgres. */
module QueryRewrite {
  import opened Decimal
  import opened Options

  datatype Dialect = Postgres | OtherDialect

  function RewriteFrom(q: string, n: nat): string {
    if q == "" then ""
    else if q[0] == '?' then "$" + Itoa(n) + RewriteFrom(q[1..], n + 1)
    else if q[0] == '`' then "\"" + RewriteFrom(q[1..], n)
    else [q[0]] + RewriteFrom(q[1..], n)
  }

  function Prepared(q: string, d: Dialect): string {
    if d.Postgres? then RewriteFrom(q, 1) else q
  }

  function Marks(q: string): nat {
    if q == "" then 0 else (if q[0] == '?' then 1 else 0) + Marks(q[1..])
  }

  lemma {:induction false} RewriteAppend(a: string, b: string, n: nat)
    ensures RewriteFrom(a + b, n) == RewriteFrom(a, n) + RewriteFrom(b, n + Marks(a))
    decreases |a|
  {
    if a == "" {
      assert a + b == b;
    } else {
      assert (a + b)[1..] == a[1..] + b;
      RewriteAppend(a[1..], b, if a[0] == '?' then n + 1 else n);
    }
  }

  lemma {:induction false} MarksAppend(a: string, b: string)
    ensures Marks(a + b) == Marks(a) + Marks(b)
  {
    if a == "" {
      assert a + b == b;
    } else {
      assert (a + b)[1..] == a[1..] + b;
      MarksAppend(a[1..], b);
    }
  }

  /** One more character of the query. */
  lemma RewriteNext(q: string, i: nat)
    requires i < |q|
    ensures var n := 1 + Marks(q[..i]);
            && 1 + Marks(q[..i + 1]) == (if q[i] == '?' then n + 1 else n)
            && RewriteFrom(q[..i + 1], 1) ==
               RewriteFrom(q[..i], 1) + (if q[i] == '?' then "$" + Itoa(n) else if q[i] == '`' then "\"" else [q[i]])
  {
    var n := 1 + Marks(q[..i]);
    assert q[..i + 1] == q[..i] + [q[i]] && [q[i]][1..] == "";
    MarksAppend(q[..i], [q[i]]);
    RewriteAppend(q[..i], [q[i]], 1);
    assert "$" + Itoa(n) + "" == "$" + Itoa(n);
  }

  method PrepareQuery(q: string, d: Dialect) returns (r: string)
    ensures r == Prepared(q, d)
  {
    if d.OtherDialect? {
      return q;
    }
    r := "";
    var argNum := 1;
    for i := 0 to |q|
      invariant argNum == 1 + Marks(q[..i])
      invariant r == RewriteFrom(q[..i], 1)
    {
      RewriteNext(q, i);
      if q[i] == '?' {
        r := r + "$" + Itoa(argNum);
        argNum := argNum + 1;
      } else if q[i] == '`' {
        r := r + "\"";
      } else {
        r := r + [q[i]];
      }
    }
    assert q[..|q|] == q;
  }

  // ---------------------------------------------------------------- what each character becomes

  /** The i-th mark becomes `$i`, a backquote a double quote, and every other character stays. */
  lemma EachCharacter(q: string, k: nat)
    requires k < |q|
    ensures var before := Prepared(q[..k], Postgres);
            var i := Marks(q[..k]) + 1;
            Prepared(q, Postgres) ==
              if q[k] == '?' then before + "$" + Itoa(i) + RewriteFrom(q[k + 1..], i + 1)
              else before + [if q[k] == '`' then '"' else q[k]] + RewriteFrom(q[k + 1..], i)
  {
    assert q == q[..k] + q[k..] && q[k..][1..] == q[k + 1..];
    RewriteAppend(q[..k], q[k..], 1);
  }

  // ---------------------------------------------------------------- applied twice

  lemma {:induction false} NothingLeftToRewrite(q: string, n: nat)
    ensures '?' !in RewriteFrom(q, n) && '`' !in RewriteFrom(q, n)
    decreases |q|
  {
    if q != "" {
      NothingLeftToRewrite(q[1..], if q[0] == '?' then n + 1 else n);
      var digits := Itoa(n);
      assert forall i :: 0 <= i < |digits| ==> IsDigit(digits[i]);
    }
  }

  lemma {:induction false} UnchangedIff(q: string, n: nat)
    ensures RewriteFrom(q, n) == q <==> '?' !in q && '`' !in q
    decreases |q|
  {
    if q != "" {
      assert q == [q[0]] + q[1..];
      if q[0] == '?' || q[0] == '`' {
        assert RewriteFrom(q, n)[0] != q[0];
      } else {
        UnchangedIff(q[1..], n);
        assert RewriteFrom(q, n)[1..] == RewriteFrom(q[1..], n);
      }
    }
  }

  /** Callers may prepare a query that is prepared again on its way to the database. */
  lemma PreparingTwice(q: string, d: Dialect)
    ensures Prepared(Prepared(q, d), d) == Prepared(q, d)
    ensures Prepared(q, d) == q <==> d.OtherDialect? || ('?' !in q && '`' !in q)
  {
    NothingLeftToRewrite(q, 1);
    UnchangedIff(RewriteFrom(q, 1), 1);
    UnchangedIff(q, 1);
  }

  // ---------------------------------------------------------------- recovering the query

  /** Reads marks and backquotes back, with the number the next mark must have. */
  function Recover(t: string, n: nat): Option<string>
    decreases |t|
  {
    if t == "" then Some("")
    else if t[0] == '$' then
      if !(Itoa(n) <= t[1..]) then None
      else
        match Recover(t[1..][|Itoa(n)|..], n + 1)
        case None => None
        case Some(rest) => Some("?" + rest)
    else
      match Recover(t[1..], n)
      case None => None
      case Some(rest) => Some([if t[0] == '"' then '`' else t[0]] + rest)
  }

  function Prefixed(c: char, r: Option<string>): Option<string> {
    match r
    case None => None
    case Some(rest) => Some([c] + rest)
  }

  lemma RecoverMark(n: nat, tail: string)
    ensures Recover("$" + Itoa(n) + tail, n) == Prefixed('?', Recover(tail, n + 1))
  {
    var t := "$" + Itoa(n) + tail;
    assert t[1..] == Itoa(n) + tail;
    assert t[1..][|Itoa(n)|..] == tail;
  }

  lemma RecoverCharacter(c: char, n: nat, tail: string)
    ensures c != '$' ==> Recover([c] + tail, n) == Prefixed(if c == '"' then '`' else c, Recover(tail, n))
    ensures c == '$' ==> Recover([c] + tail, n).None? || Recover([c] + tail, n).value[..1] == "?"
  {
    assert ([c] + tail)[1..] == tail;
  }

  lemma PrefixedIff(c: char, r: Option<string>, q: string)
    requires q != ""
    ensures Prefixed(c, r) == Some(q) <==> c == q[0] && r == Some(q[1..])
  {
    assert q == [q[0]] + q[1..];
    if r.Some? {
      assert ([c] + r.value)[1..] == r.value;
    }
  }

  /** The original can be read back exactly if it had no dollar sign and no double quote. */
  lemma {:induction false} RecoverableIff(q: string, n: nat)
    ensures Recover(RewriteFrom(q, n), n) == Some(q) <==> '$' !in q && '"' !in q
    decreases |q|
  {
    if q != "" {
      var c, rest := q[0], q[1..];
      if c == '?' {
        RecoverableIff(rest, n + 1);
        RecoverMark(n, RewriteFrom(rest, n + 1));
        PrefixedIff('?', Recover(RewriteFrom(rest, n + 1), n + 1), q);
      } else {
        var tail := RewriteFrom(rest, n);
        var written := if c == '`' then '"' else c;
        RecoverableIff(rest, n);
        RecoverCharacter(written, n, tail);
        PrefixedIff(if written == '"' then '`' else written, Recover(tail, n), q);
      }
      assert q == [c] + rest;
    }
  }

  lemma DistinctQueriesStayDistinct(a: string, b: string)
    requires '$' !in a && '"' !in a && '$' !in b && '"' !in b
    requires Prepared(a, Postgres) == Prepared(b, Postgres)
    ensures a == b
  {
    RecoverableIff(a, 1);
    RecoverableIff(b, 1);
  }

  lemma CollidingQueries()
    ensures Prepared("$1", Postgres) == Prepared("?", Postgres)
    ensures Prepared("\"", Postgres) == Prepared("`", Postgres)
  {
    assert "$1"[1..] == "1" && "1"[1..] == "" && "?"[1..] == "" && "\""[1..] == "" && "`"[1..] == "";
    assert Itoa(1) == "1";
  }

  // ---------------------------------------------------------------- what the database reads

  datatype Token = Char(c: char) | Argument(number: nat)

  /** What the caller means: the i-th mark is the i-th argument, a backquote a quote. */
  function Intended(q: string, n: nat): seq<Token> {
    if q == "" then []
    else if q[0] == '?' then [Argument(n)] + Intended(q[1..], n + 1)
    else [Char(if q[0] == '`' then '"' else q[0])] + Intended(q[1..], n)
  }

  function DigitRun(t: string): (k: nat)
    ensures k <= |t| && AllDigits(t[..k]) && (k < |t| ==> !IsDigit(t[k]))
  {
    if t == "" || !IsDigit(t[0]) then 0 else
      assert forall k :: 0 <= k <= |t| - 1 ==> t[..k + 1] == [t[0]] + t[1..][..k];
      1 + DigitRun(t[1..])
  }

  /** How Postgres reads a parameter: a dollar sign with all the digits that follow it. */
  function Lexed(t: string): seq<Token> {
    if t == "" then []
    else
      var k := DigitRun(t[1..]);
      if t[0] == '$' && k > 0 then [Argument(Parse(t[1..][..k]))] + Lexed(t[1..][k..])
      else [Char(t[0])] + Lexed(t[1..])
  }

  /** No mark or dollar sign stands right before a digit. */
  predicate Separated(q: string) {
    forall i :: 0 <= i < |q| - 1 && (q[i] == '?' || q[i] == '$') ==> !IsDigit(q[i + 1])
  }

  lemma {:induction false} DigitRunAppend(a: string, b: string)
    requires AllDigits(a)
    ensures DigitRun(a + b) == |a| + DigitRun(b)
  {
    if a == "" {
      assert a + b == b;
    } else {
      assert (a + b)[1..] == a[1..] + b;
      DigitRunAppend(a[1..], b);
    }
  }

  lemma {:induction false} MoreDigits(n: nat, ds: string)
    requires n > 0 && AllDigits(ds) && ds != "" && AllDigits(Itoa(n) + ds)
    ensures Parse(Itoa(n) + ds) > n
    decreases |ds|
  {
    var s := Itoa(n) + ds;
    assert s[..|s| - 1] == Itoa(n) + ds[..|ds| - 1];
    if |ds| == 1 {
      assert s[..|s| - 1] == Itoa(n);
      ParseItoa(n);
    } else {
      MoreDigits(n, ds[..|ds| - 1]);
    }
  }

  lemma StartsWithDigit(q: string, n: nat)
    ensures DigitRun(RewriteFrom(q, n)) > 0 <==> q != "" && IsDigit(q[0])
  {
  }

  lemma SeparatedCons(q: string)
    requires q != ""
    ensures Separated(q) <==> Separated(q[1..]) && !((q[0] == '?' || q[0] == '$') && q[1..] != "" && IsDigit(q[1..][0]))
  {
    var rest := q[1..];
    if Separated(q) {
      forall i | 0 <= i < |rest| - 1 && (rest[i] == '?' || rest[i] == '$') ensures !IsDigit(rest[i + 1]) {
        assert rest[i] == q[i + 1] && rest[i + 1] == q[i + 2];
      }
    } else {
      var i :| 0 <= i < |q| - 1 && (q[i] == '?' || q[i] == '$') && IsDigit(q[i + 1]);
      assert i > 0 ==> rest[i - 1] == q[i] && rest[i] == q[i + 1];
    }
  }

  /** Whether the reader takes the next character or mark for what it is. */
  predicate Clear(q: string) {
    q != "" && (q[0] == '?' || q[0] == '$') ==> !(q[1..] != "" && IsDigit(q[1..][0]))
  }

  lemma ReadMark(q: string, n: nat)
    requires n > 0 && q != "" && q[0] == '?'
    ensures Lexed(RewriteFrom(q, n)) == Intended(q, n) <==>
            Clear(q) && Lexed(RewriteFrom(q[1..], n + 1)) == Intended(q[1..], n + 1)
  {
    var tail := RewriteFrom(q[1..], n + 1);
    StartsWithDigit(q[1..], n + 1);
    ReadNumbered("$" + Itoa(n) + tail, n, tail);
    assert ([Argument(n)] + Lexed(tail))[1..] == Lexed(tail);
    assert ([Argument(n)] + Intended(q[1..], n + 1))[1..] == Intended(q[1..], n + 1);
  }

  lemma ReadCharacter(q: string, n: nat)
    requires q != "" && q[0] != '?'
    ensures Lexed(RewriteFrom(q, n)) == Intended(q, n) <==>
            Clear(q) && Lexed(RewriteFrom(q[1..], n)) == Intended(q[1..], n)
  {
    var tail := RewriteFrom(q[1..], n);
    var c := if q[0] == '`' then '"' else q[0];
    StartsWithDigit(q[1..], n);
    assert RewriteFrom(q, n) == [c] + tail && ([c] + tail)[1..] == tail;
    assert ([Char(c)] + Lexed(tail))[1..] == Lexed(tail);
    assert ([Char(c)] + Intended(q[1..], n))[1..] == Intended(q[1..], n);
  }

  /** The database reads what the caller means exactly if no mark and no dollar sign stands right
      before a digit. */
  lemma {:induction false} MeaningKeptIff(q: string, n: nat)
    requires n > 0
    ensures Lexed(RewriteFrom(q, n)) == Intended(q, n) <==> Separated(q)
    decreases |q|
  {
    if q != "" {
      SeparatedCons(q);
      if q[0] == '?' {
        MeaningKeptIff(q[1..], n + 1);
        ReadMark(q, n);
      } else {
        MeaningKeptIff(q[1..], n);
        ReadCharacter(q, n);
      }
    }
  }

  lemma LexedArgument(t: string, k: nat)
    requires t != "" && t[0] == '$' && k == DigitRun(t[1..]) && k > 0
    ensures Lexed(t) == [Argument(Parse(t[1..][..k]))] + Lexed(t[1..][k..])
  {
  }

  lemma ReadDollar(digits: string, tail: string)
    requires digits != "" && AllDigits(digits)
    ensures var k := DigitRun(tail);
            AllDigits(digits + tail[..k]) &&
                Lexed("$" + (digits + tail)) == [Argument(Parse(digits + tail[..k]))] + Lexed(tail[k..])
  {
    var t, k := "$" + (digits + tail), DigitRun(tail);
    assert t[1..] == digits + tail;
    DigitRunAppend(digits, tail);
    assert (digits + tail)[..|digits| + k] == digits + tail[..k];
    assert (digits + tail)[|digits| + k..] == tail[k..];
    LexedArgument(t, |digits| + k);
  }

  lemma ReadNumbered(t: string, n: nat, tail: string)
    requires n > 0 && t == "$" + Itoa(n) + tail
    ensures DigitRun(tail) == 0 ==> Lexed(t) == [Argument(n)] + Lexed(tail)
    ensures DigitRun(tail) > 0 ==> Lexed(t)[0] != Argument(n)
  {
    var k := DigitRun(tail);
    assert t == "$" + (Itoa(n) + tail);
    ReadDollar(Itoa(n), tail);
    if k == 0 {
      assert Itoa(n) + tail[..k] == Itoa(n) && tail[k..] == tail;
      ParseItoa(n);
    } else {
      MoreDigits(n, tail[..k]);
    }
  }

  lemma PreparedMeaningKeptIff(q: string)
    ensures Lexed(Prepared(q, Postgres)) == Intended(q, 1) <==> Separated(q)
  {
    MeaningKeptIff(q, 1);
  }
}
