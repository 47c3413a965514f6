/**
  The checks a query string goes through before it is compiled: the
  parenthesis-balance loop (the same in query.py, search/query.py and
  search/decorators.py), and the text of the error raised when compiling fails.
 */
module Validation {
  import opened Seqs

  /** The change one character makes to the number of open parentheses. */
  function Delta(c: char): int {
    if c == '(' then 1 else if c == ')' then -1 else 0
  }

  /** The number of '(' minus the number of ')' in s. */
  function Depth(s: string): int {
    if s == [] then 0 else Delta(s[0]) + Depth(s[1..])
  }

  /** The running open-count never goes negative and ends at zero. */
  ghost predicate Balanced(s: string) {
    (forall k :: 0 <= k <= |s| ==> Depth(s[..k]) >= 0) && Depth(s) == 0
  }

  /**
    What the stack loop computes, starting with `open` parentheses on the
    stack: a ')' with nothing to pop fails, and the stack must be empty at the end.
   */
  predicate Accepts(s: string, open: nat) {
    if s == [] then open == 0
    else if s[0] == '(' then Accepts(s[1..], open + 1)
    else if s[0] == ')' then open > 0 && Accepts(s[1..], open - 1)
    else Accepts(s[1..], open)
  }

  lemma {:induction false} AcceptsCharacterization(s: string, n: nat)
    ensures Accepts(s, n) <==>
      (forall k :: 0 <= k <= |s| ==> n + Depth(s[..k]) >= 0) && n + Depth(s) == 0
  {
    if s == [] {
      assert s[..0] == [];
    } else {
      var t := s[1..];
      var m := n + Delta(s[0]);
      forall k | 1 <= k <= |s| ensures Depth(s[..k]) == Delta(s[0]) + Depth(t[..k - 1]) {
        assert s[..k][1..] == t[..k - 1];
      }
      assert t[..0] == [];
      if m >= 0 {
        AcceptsCharacterization(t, m);
        if forall k :: 0 <= k <= |t| ==> m + Depth(t[..k]) >= 0 {
          forall k | 0 <= k <= |s| ensures n + Depth(s[..k]) >= 0 {
            if k > 0 {
              assert n + Depth(s[..k]) == m + Depth(t[..k - 1]);
            } else {
              assert s[..k] == [];
            }
          }
        }
        if forall k :: 0 <= k <= |s| ==> n + Depth(s[..k]) >= 0 {
          forall k | 0 <= k <= |t| ensures m + Depth(t[..k]) >= 0 {
            assert n + Depth(s[..k + 1]) >= 0;
          }
        }
      } else {
        assert n + Depth(s[..1]) < 0;
      }
    }
  }

  /** The stack loop accepts exactly the balanced strings. */
  lemma AcceptsIffBalanced(s: string)
    ensures Accepts(s, 0) <==> Balanced(s)
  {
    AcceptsCharacterization(s, 0);
  }

  /**
    __validate_query_str / _validate: push every '(' on a list, pop one for
    every ')' (popping an empty list raises IndexError), and require the list
    to be empty at the end. Answers whether no error would be raised.
   */
  method CheckBalanced(s: string) returns (ok: bool)
    ensures ok <==> Balanced(s)
  {
    var stack: seq<char> := [];
    var i := 0;
    while i < |s|
      invariant 0 <= i <= |s|
      invariant forall k :: 0 <= k < |stack| ==> stack[k] == '('
      invariant Accepts(s[i..], |stack|) == Accepts(s, 0)
    {
      var c := s[i];
      assert s[i..][1..] == s[i + 1..];
      if c == '(' {
        stack := stack + [c];
      } else if c == ')' {
        if |stack| == 0 {
          // stack.pop(-1) raises IndexError
          AcceptsIffBalanced(s);
          return false;
        }
        stack := stack[..|stack| - 1];
      }
      i := i + 1;
    }
    ok := |stack| == 0;
    AcceptsIffBalanced(s);
  }

  predicate IsParen(c: char) {
    c == '(' || c == ')'
  }

  lemma {:induction false} AcceptsIgnoresOtherCharacters(s: string, n: nat)
    ensures Accepts(s, n) == Accepts(Filter(s, IsParen), n)
  {
    if s != [] {
      if s[0] == '(' {
        AcceptsIgnoresOtherCharacters(s[1..], n + 1);
      } else if s[0] == ')' {
        if n > 0 {
          AcceptsIgnoresOtherCharacters(s[1..], n - 1);
        }
      } else {
        AcceptsIgnoresOtherCharacters(s[1..], n);
      }
    }
  }

  /** Only the parentheses of a query decide whether it is balanced. */
  lemma OnlyParenthesesMatter(s: string)
    ensures Balanced(s) <==> Balanced(Filter(s, IsParen))
  {
    AcceptsIgnoresOtherCharacters(s, 0);
    AcceptsIffBalanced(s);
    AcceptsIffBalanced(Filter(s, IsParen));
  }

  /** Wrapping a balanced query in one more pair of parentheses keeps it balanced. */
  lemma GroupingKeepsBalance(s: string)
    requires Balanced(s)
    ensures Balanced("(" + s + ")")
  {
    AcceptsIffBalanced(s);
    AcceptsNested(s, 0);
    assert ("(" + s + ")")[1..] == s + ")";
    AcceptsIffBalanced("(" + s + ")");
  }

  lemma {:induction false} AcceptsNested(s: string, n: nat)
    requires Accepts(s, n)
    ensures Accepts(s + ")", n + 1)
  {
    if s == [] {
      assert s + ")" == ")";
    } else {
      assert (s + ")")[1..] == s[1..] + ")";
      if s[0] == '(' {
        AcceptsNested(s[1..], n + 1);
      } else if s[0] == ')' {
        AcceptsNested(s[1..], n - 1);
      } else {
        AcceptsNested(s[1..], n);
      }
    }
  }

  lemma {:induction false} AcceptsConcat(a: string, b: string, n: nat)
    requires Accepts(a, n) && Accepts(b, 0)
    ensures Accepts(a + b, n)
  {
    if a == [] {
      assert a + b == b;
    } else {
      assert (a + b)[1..] == a[1..] + b;
      if a[0] == '(' {
        AcceptsConcat(a[1..], b, n + 1);
      } else if a[0] == ')' {
        AcceptsConcat(a[1..], b, n - 1);
      } else {
        AcceptsConcat(a[1..], b, n);
      }
    }
  }

  /** Two balanced queries written one after the other form a balanced query. */
  lemma BalancedConcat(a: string, b: string)
    requires Balanced(a) && Balanced(b)
    ensures Balanced(a + b)
  {
    AcceptsIffBalanced(a);
    AcceptsIffBalanced(b);
    AcceptsConcat(a, b, 0);
    AcceptsIffBalanced(a + b);
  }

  lemma {:induction false} AcceptsWithoutParentheses(s: string)
    requires forall k :: 0 <= k < |s| ==> !IsParen(s[k])
    ensures Accepts(s, 0)
  {
    if s != [] {
      AcceptsWithoutParentheses(s[1..]);
    }
  }

  /** A string without parentheses is balanced. */
  lemma BalancedWithoutParentheses(s: string)
    requires forall k :: 0 <= k < |s| ==> !IsParen(s[k])
    ensures Balanced(s)
  {
    AcceptsWithoutParentheses(s);
    AcceptsIffBalanced(s);
  }

  /** The stack check accepts "(" a word b ")" when it accepts a and b and word has no parentheses. */
  lemma GroupAccepted(a: string, word: string, b: string)
    requires Accepts(a, 0) && Accepts(b, 0)
    requires forall k :: 0 <= k < |word| ==> !IsParen(word[k])
    ensures Accepts("(" + a + word + b + ")", 0)
  {
    AcceptsWithoutParentheses(word);
    AcceptsConcat(a, word, 0);
    AcceptsConcat(a + word, b, 0);
    AcceptsNested(a + word + b, 0);
    assert ("(" + a + word + b + ")")[1..] == a + word + b + ")";
  }

  /** The stack check accepts "[" l word r "]" when it accepts l and r and word has no parentheses. */
  lemma BracketedAccepted(l: string, word: string, r: string)
    requires Accepts(l, 0) && Accepts(r, 0)
    requires forall k :: 0 <= k < |word| ==> !IsParen(word[k])
    ensures Accepts("[" + l + word + r + "]", 0)
  {
    AcceptsWithoutParentheses(word);
    AcceptsWithoutParentheses("]");
    AcceptsConcat(l, word, 0);
    AcceptsConcat(l + word, r, 0);
    AcceptsConcat(l + word + r, "]", 0);
    assert ("[" + l + word + r + "]")[1..] == l + word + r + "]";
  }

  /** A rendered negation "[NOT x]" is accepted when x is. */
  lemma NegationAccepted(x: string)
    requires Accepts(x, 0)
    ensures Accepts("[NOT " + x + "]", 0)
  {
    BracketedAccepted("", "NOT ", x);
    assert "[" + "" + "NOT " + x + "]" == "[NOT " + x + "]";
  }

  /** A rendered conjunction "[l AND r]" is accepted when l and r are. */
  lemma ConjunctionAccepted(l: string, r: string)
    requires Accepts(l, 0) && Accepts(r, 0)
    ensures Accepts("[" + l + " AND " + r + "]", 0)
  {
    BracketedAccepted(l, " AND ", r);
  }

  /** A rendered disjunction "[l OR r]" is accepted when l and r are. */
  lemma DisjunctionAccepted(l: string, r: string)
    requires Accepts(l, 0) && Accepts(r, 0)
    ensures Accepts("[" + l + " OR " + r + "]", 0)
  {
    BracketedAccepted(l, " OR ", r);
  }

  predicate NotNewline(c: char) {
    c != '\n'
  }

  /**
    "Invalid query string '<query>'" with every '\n' of the query removed
    (query_str.replace('\n', '')).
   */
  function InvalidQueryMessage(s: string): (m: string)
    ensures '\n' !in m
    ensures |m| >= 23 && m[..22] == "Invalid query string '" && m[|m| - 1] == '\''
  {
    var quoted := Filter(s, NotNewline);
    assert forall c :: c in quoted ==> c != '\n';
    "Invalid query string '" + quoted + "'"
  }

  /**
    Between the quotes stands exactly the query with its newlines removed, in
    order: a character is quoted iff the query holds it and it is not '\n'.
   */
  lemma InvalidQueryMessageQuotes(s: string, c: char)
    ensures var m := InvalidQueryMessage(s); m[22..|m| - 1] == Filter(s, NotNewline)
    ensures var m := InvalidQueryMessage(s); c in m[22..|m| - 1] <==> c in s && c != '\n'
    ensures c in s && c != '\n' ==> c in InvalidQueryMessage(s)
  {
    var m := InvalidQueryMessage(s);
    assert m[22..|m| - 1] == Filter(s, NotNewline);
    FilterMembership(s, NotNewline, c);
  }
}
