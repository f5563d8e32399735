/**
 `postgres_sql` of crates/pandar-hub/src/cleanup.rs: `?` placeholders become `$1`, `$2`,
 and so on. Binding by index after the rewrite means the same as binding by position
 before it, exactly for the texts characterised here.
*/
module PostgresSql {
  import opened Decimal

  /** The rewritten text, when the next placeholder is number `next`. */
  function Rewrite(sql: string, next: nat): string {
    if sql == "" then ""
    else if sql[0] == '?' then "$" + Print(next) + Rewrite(sql[1..], next + 1)
    else [sql[0]] + Rewrite(sql[1..], next)
  }

  /** `postgres_sql`. */
  method Rewriter(sql: string) returns (result: string)
    ensures result == Rewrite(sql, 1)
  {
    result := "";
    var next := 1;
    for i := 0 to |sql|
      invariant next >= 1
      invariant result + Rewrite(sql[i..], next) == Rewrite(sql, 1)
    {
      HeadOfSuffix(sql, i);
      ghost var head, next' := RewriteHead(sql[i], sql[i + 1..], next);
      Associate(result, head, Rewrite(sql[i + 1..], next'));
      var placeholder := if sql[i] == '?' then "$" + Print(next) else [sql[i]];
      if sql[i] == '?' {
        next := next + 1;
      }
      result := result + placeholder;
    }
    assert sql[|sql|..] == "";
  }

  // ----- Two ways to bind -----

  /** Bound by position: the k-th `?` stands for value k, counting from `next`. */
  function ByPosition(sql: string, bind: nat -> string, next: nat): string {
    if sql == "" then ""
    else if sql[0] == '?' then bind(next) + ByPosition(sql[1..], bind, next + 1)
    else [sql[0]] + ByPosition(sql[1..], bind, next)
  }

  function DigitRun(s: string): (n: nat)
    ensures n <= |s| && (forall i | 0 <= i < n :: IsDigit(s[i])) && (n < |s| ==> !IsDigit(s[n]))
  {
    if s == "" || !IsDigit(s[0]) then 0 else 1 + DigitRun(s[1..])
  }

  predicate IsParameter(text: string) {
    |text| >= 2 && text[0] == '$' && IsDigit(text[1])
  }

  /** Bound by index: `$` and the longest run of digits after it name a value. */
  function ByIndex(text: string, bind: nat -> string): string
    decreases |text|
  {
    if text == "" then ""
    else if IsParameter(text) then
      var n := DigitRun(text[1..]);
      bind(Read(text[1..][..n])) + ByIndex(text[1..][n..], bind)
    else [text[0]] + ByIndex(text[1..], bind)
  }

  // ----- When they agree -----

  predicate StartsWithDigit(s: string) {
    s != "" && IsDigit(s[0])
  }

  /** The first character is a `?` or `$` and a digit follows it. */
  predicate Ambiguous(sql: string) {
    sql != "" && (sql[0] == '?' || sql[0] == '$') && StartsWithDigit(sql[1..])
  }

  /** No `?` and no `$` is directly followed by a digit. */
  predicate Clean(sql: string) {
    forall i | 0 <= i < |sql| :: !Ambiguous(sql[i..])
  }

  lemma DigitRunOf(p: string, r: string)
    requires forall i | 0 <= i < |p| :: IsDigit(p[i])
    ensures DigitRun(p + r) >= |p|
    ensures !StartsWithDigit(r) ==> DigitRun(p + r) == |p|
    ensures StartsWithDigit(r) ==> DigitRun(p + r) > |p|
  {
    var s := p + r;
    assert forall i | 0 <= i < |p| :: s[i] == p[i];
    assert r != "" ==> s[|p|] == r[0];
  }

  lemma {:induction false} ReadAppend(p: string, q: string)
    requires forall i | 0 <= i < |p| :: IsDigit(p[i])
    requires forall i | 0 <= i < |q| :: IsDigit(q[i])
    ensures Read(p + q) >= Read(p)
    ensures q != "" ==> Read(p + q) >= 10 * Read(p)
  {
    if q == "" {
      assert p + q == p;
    } else {
      ReadAppend(p, q[..|q| - 1]);
      assert (p + q)[..|p + q| - 1] == p + q[..|q| - 1];
    }
  }

  lemma RewriteStarts(sql: string, next: nat)
    ensures StartsWithDigit(Rewrite(sql, next)) <==> StartsWithDigit(sql)
    ensures Rewrite(sql, next) == "" <==> sql == ""
  {
  }

  /** An unambiguous first character contributes the same text to both bindings. */
  lemma HeadAgrees(sql: string, bind: nat -> string, next: nat) returns (head: string, next': nat)
    requires sql != "" && !Ambiguous(sql)
    ensures next' == if sql[0] == '?' then next + 1 else next
    ensures ByIndex(Rewrite(sql, next), bind) == head + ByIndex(Rewrite(sql[1..], next'), bind)
    ensures ByPosition(sql, bind, next) == head + ByPosition(sql[1..], bind, next')
  {
    var text := Rewrite(sql, next);
    if sql[0] == '?' {
      head, next' := bind(next), next + 1;
      var rest := Rewrite(sql[1..], next');
      RewriteStarts(sql[1..], next');
      assert text == ['$'] + (Print(next) + rest);
      assert text[1..] == Print(next) + rest;
      DigitRunOf(Print(next), rest);
      assert (Print(next) + rest)[..|Print(next)|] == Print(next);
      assert (Print(next) + rest)[|Print(next)|..] == rest;
      ReadPrint(next);
    } else {
      head, next' := [sql[0]], next;
      RewriteStarts(sql[1..], next');
      assert text[1..] == Rewrite(sql[1..], next');
    }
  }

  lemma {:induction false} CleanAgrees(sql: string, bind: nat -> string, next: nat)
    requires Clean(sql)
    ensures ByIndex(Rewrite(sql, next), bind) == ByPosition(sql, bind, next)
  {
    if sql != "" {
      assert sql[0..] == sql;
      var head, next' := HeadAgrees(sql, bind, next);
      assert forall i | 0 <= i < |sql[1..]| :: sql[1..][i..] == sql[i + 1..];
      CleanAgrees(sql[1..], bind, next');
    }
  }

  function Telling(k: nat): nat -> string {
    j => if j == k then "x" else "y"
  }

  /** A digit glued to a numeral makes it another number. */
  lemma LongerNumeral(n: nat, rest: string)
    requires n >= 1 && StartsWithDigit(rest)
    ensures var s := Print(n) + rest;
            Read(s[..DigitRun(s)]) != n
  {
    var s := Print(n) + rest;
    DigitRunOf(Print(n), rest);
    var q := s[|Print(n)|..DigitRun(s)];
    assert s[..DigitRun(s)] == Print(n) + q;
    ReadPrint(n);
    ReadAppend(Print(n), q);
  }

  lemma ParameterFirst(text: string, bind: nat -> string)
    requires IsParameter(text)
    ensures bind(Read(text[1..][..DigitRun(text[1..])])) <= ByIndex(text, bind)
  {
  }

  /** An ambiguous first character gives the two bindings different texts. */
  lemma AmbiguousDiffers(sql: string, next: nat)
    requires Ambiguous(sql) && next >= 1
    ensures ByIndex(Rewrite(sql, next), Telling(next)) != ByPosition(sql, Telling(next), next)
  {
    var text := Rewrite(sql, next);
    var bind := Telling(next);
    if sql[0] == '?' {
      var rest := Rewrite(sql[1..], next + 1);
      RewriteStarts(sql[1..], next + 1);
      assert text[1..] == Print(next) + rest;
      LongerNumeral(next, rest);
      ParameterFirst(text, bind);
      assert ByIndex(text, bind)[0] == 'y';
      assert ByPosition(sql, bind, next)[0] == 'x';
    } else {
      RewriteStarts(sql[1..], next);
      assert text[1..] == Rewrite(sql[1..], next) && IsParameter(text);
      ParameterFirst(text, bind);
      assert ByIndex(text, bind)[0] != '$';
      assert ByPosition(sql, bind, next)[0] == '$';
    }
  }

  lemma {:induction false} UncleanDiffers(sql: string, next: nat) returns (bind: nat -> string)
    requires !Clean(sql) && next >= 1
    ensures ByIndex(Rewrite(sql, next), bind) != ByPosition(sql, bind, next)
  {
    assert sql[0..] == sql;
    if Ambiguous(sql) {
      bind := Telling(next);
      AmbiguousDiffers(sql, next);
    } else {
      var i :| 0 <= i < |sql| && Ambiguous(sql[i..]);
      assert sql[i..] == sql[1..][i - 1..];
      bind := UncleanDiffers(sql[1..], if sql[0] == '?' then next + 1 else next);
      var head, next' := HeadAgrees(sql, bind, next);
      var x, y := ByIndex(Rewrite(sql[1..], next'), bind), ByPosition(sql[1..], bind, next');
      assert (head + x)[|head|..] == x && (head + y)[|head|..] == y;
    }
  }

  /**
   The rewrite preserves the meaning of a text, for every list of bound values, exactly
   when no `?` and no `$` in it is directly followed by a digit. Meaning here is plain text
   substitution: SQL quoting is not told apart, by this reading or by the code, which
   renumbers a `?` inside a quoted literal like any other.
  */
  lemma RewritePreservesMeaning(sql: string)
    ensures Clean(sql) <==> forall bind: nat -> string :: ByIndex(Rewrite(sql, 1), bind) == ByPosition(sql, bind, 1)
  {
    if Clean(sql) {
      forall bind: nat -> string
        ensures ByIndex(Rewrite(sql, 1), bind) == ByPosition(sql, bind, 1)
      {
        CleanAgrees(sql, bind, 1);
      }
    } else {
      var bind := UncleanDiffers(sql, 1);
    }
  }

  // ----- Wrapped selects -----

  function Placeholders(sql: string): nat {
    if sql == "" then 0 else (if sql[0] == '?' then 1 else 0) + Placeholders(sql[1..])
  }

  lemma Associate(a: string, b: string, c: string)
    ensures a + (b + c) == a + b + c
  {
  }

  lemma {:induction false} RewriteConcat(a: string, b: string, next: nat)
    ensures Rewrite(a + b, next) == Rewrite(a, next) + Rewrite(b, next + Placeholders(a))
  {
    if a == "" {
      assert a + b == b;
    } else {
      var head, next' := RewriteHead(a[0], a[1..], next);
      var head', next'' := RewriteHead(a[0], a[1..] + b, next);
      HeadOfConcat(a, b);
      RewriteConcat(a[1..], b, next');
      Associate(head, Rewrite(a[1..], next'), Rewrite(b, next + Placeholders(a)));
    }
  }

  lemma HeadOfConcat(a: string, b: string)
    requires a != ""
    ensures a == [a[0]] + a[1..] && a + b == [a[0]] + (a[1..] + b)
  {
  }

  lemma HeadOfSuffix(sql: string, i: nat)
    requires i < |sql|
    ensures sql[i..] == [sql[i]] + sql[i + 1..]
  {
  }

  lemma RewriteHead(c: char, rest: string, next: nat) returns (head: string, next': nat)
    ensures head == if c == '?' then "$" + Print(next) else [c]
    ensures next' == if c == '?' then next + 1 else next
    ensures Rewrite([c] + rest, next) == head + Rewrite(rest, next')
  {
    head := if c == '?' then "$" + Print(next) else [c];
    next' := if c == '?' then next + 1 else next;
    assert ([c] + rest)[1..] == rest;
  }

  lemma {:induction false} RewriteNothing(a: string, next: nat)
    requires '?' !in a
    ensures Rewrite(a, next) == a && Placeholders(a) == 0
  {
    if a != "" {
      RewriteNothing(a[1..], next);
    }
  }

  /** Wrapping a select in placeholder-free text does not renumber its placeholders. */
  lemma WrappedSelectKeepsNumbers(before: string, sql: string, after: string)
    requires '?' !in before && '?' !in after
    ensures Rewrite(before + sql + after, 1) == before + Rewrite(sql, 1) + after
  {
    RewriteConcat(before + sql, after, 1);
    RewriteConcat(before, sql, 1);
    RewriteNothing(before, 1);
    RewriteNothing(after, 1 + Placeholders(before + sql));
  }
}
