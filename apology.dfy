/**
 * The `escape` helper nested in `apology` (helpers.py): the message shown on
 * an error page is rewritten with memegen's escapes by eight replace-all
 * substitutions applied one after another.
 */
module Apology {

  /** Python's `s.replace(from, to)` for a one-character `from`: every occurrence is replaced. */
  function ReplaceAll(s: string, from: char, to: string): (r: string)
    ensures from !in s ==> r == s
    ensures from !in to ==> from !in r
  {
    if s == [] then []
    else (if s[0] == from then to else [s[0]]) + ReplaceAll(s[1..], from, to)
  }

  /** The substitutions, in the order the source applies them. */
  const Substitutions: seq<(char, string)> :=
    [('-', "--"), (' ', "-"), ('_', "__"), ('?', "~q"),
     ('%', "~p"), ('#', "~h"), ('/', "~s"), ('"', "''")]

  /** The substitutions `subs` applied to `s`, first one first. */
  function ApplyInOrder(subs: seq<(char, string)>, s: string): string
  {
    if subs == [] then s
    else ApplyInOrder(subs[1..], ReplaceAll(s, subs[0].0, subs[0].1))
  }

  /** Reference reading of the escape: what each input character becomes. */
  function EscapeChar(c: char): string
  {
    match c
    case '-' => "--"
    case ' ' => "-"
    case '_' => "__"
    case '?' => "~q"
    case '%' => "~p"
    case '#' => "~h"
    case '/' => "~s"
    case '"' => "''"
    case _ => [c]
  }

  function EscapeEach(s: string): string
  {
    if s == [] then [] else EscapeChar(s[0]) + EscapeEach(s[1..])
  }

  /** `escape(s)`: reassigns `s` once per substitution. */
  method Escape(s: string) returns (r: string)
    ensures r == EscapeEach(s)
  {
    r := s;
    for i := 0 to |Substitutions|
      invariant ApplyInOrder(Substitutions[i..], r) == ApplyInOrder(Substitutions, s)
    {
      var (from, to) := Substitutions[i];
      assert Substitutions[i..][1..] == Substitutions[i + 1..];
      r := ReplaceAll(r, from, to);
    }
    EscapeInOrderIsPerCharacter(s);
  }

  lemma {:induction false} ReplaceAllConcat(a: string, b: string, from: char, to: string)
    ensures ReplaceAll(a + b, from, to) == ReplaceAll(a, from, to) + ReplaceAll(b, from, to)
  {
    if a == [] {
      assert a + b == b;
    } else {
      var head := if a[0] == from then to else [a[0]];
      assert (a + b)[0] == a[0] && (a + b)[1..] == a[1..] + b;
      calc {
        ReplaceAll(a + b, from, to);
        head + ReplaceAll(a[1..] + b, from, to);
        { ReplaceAllConcat(a[1..], b, from, to); }
        head + (ReplaceAll(a[1..], from, to) + ReplaceAll(b, from, to));
        (head + ReplaceAll(a[1..], from, to)) + ReplaceAll(b, from, to);
        ReplaceAll(a, from, to) + ReplaceAll(b, from, to);
      }
    }
  }

  lemma {:induction false} ApplyInOrderConcat(subs: seq<(char, string)>, a: string, b: string)
    ensures ApplyInOrder(subs, a + b) == ApplyInOrder(subs, a) + ApplyInOrder(subs, b)
  {
    if subs != [] {
      var (from, to) := subs[0];
      ReplaceAllConcat(a, b, from, to);
      ApplyInOrderConcat(subs[1..], ReplaceAll(a, from, to), ReplaceAll(b, from, to));
    }
  }

  /** Substitutions whose characters do not occur leave the string as it is. */
  lemma {:induction false} ApplyInOrderNoHit(subs: seq<(char, string)>, s: string)
    requires forall j :: 0 <= j < |subs| ==> subs[j].0 !in s
    ensures ApplyInOrder(subs, s) == s
  {
    if subs != [] {
      ApplyInOrderNoHit(subs[1..], s);
    }
  }

  /**
   * A one-character string is rewritten by the first substitution for its
   * character alone when no later substitution touches what that one wrote.
   */
  lemma {:induction false} ApplyInOrderFirstHit(subs: seq<(char, string)>, k: nat, c: char)
    requires k < |subs| && subs[k].0 == c
    requires forall j :: 0 <= j < k ==> subs[j].0 != c
    requires forall j :: k < j < |subs| ==> subs[j].0 !in subs[k].1
    ensures ApplyInOrder(subs, [c]) == subs[k].1
  {
    if k == 0 {
      var to := subs[0].1;
      assert ReplaceAll([c], c, to) == to + ReplaceAll([], c, to) == to;
      assert forall j :: 0 <= j < |subs[1..]| ==> subs[1..][j] == subs[j + 1];
      ApplyInOrderNoHit(subs[1..], to);
    } else {
      assert ReplaceAll([c], subs[0].0, subs[0].1) == [c] + ReplaceAll([], subs[0].0, subs[0].1);
      ApplyInOrderFirstHit(subs[1..], k - 1, c);
    }
  }

  /** One character through the eight substitutions. */
  lemma ApplyInOrderOneChar(c: char)
    ensures ApplyInOrder(Substitutions, [c]) == EscapeChar(c)
  {
    var subs := Substitutions;
    if c == '-' {
      ApplyInOrderFirstHit(subs, 0, c);
    } else if c == ' ' {
      ApplyInOrderFirstHit(subs, 1, c);
    } else if c == '_' {
      ApplyInOrderFirstHit(subs, 2, c);
    } else if c == '?' {
      ApplyInOrderFirstHit(subs, 3, c);
    } else if c == '%' {
      ApplyInOrderFirstHit(subs, 4, c);
    } else if c == '#' {
      ApplyInOrderFirstHit(subs, 5, c);
    } else if c == '/' {
      ApplyInOrderFirstHit(subs, 6, c);
    } else if c == '"' {
      ApplyInOrderFirstHit(subs, 7, c);
    } else {
      ApplyInOrderNoHit(subs, [c]);
    }
  }

  /**
   * The ordered chain equals the per-character reading: no substitution
   * rewrites what an earlier one produced, except that the `-` written for
   * a space comes after hyphens were already doubled.
   */
  lemma {:induction false} EscapeInOrderIsPerCharacter(s: string)
    ensures ApplyInOrder(Substitutions, s) == EscapeEach(s)
  {
    if s == [] {
      ApplyInOrderEmpty(Substitutions);
    } else {
      assert s == [s[0]] + s[1..];
      ApplyInOrderConcat(Substitutions, [s[0]], s[1..]);
      ApplyInOrderOneChar(s[0]);
      EscapeInOrderIsPerCharacter(s[1..]);
    }
  }

  lemma {:induction false} ApplyInOrderEmpty(subs: seq<(char, string)>)
    ensures ApplyInOrder(subs, []) == []
  {
    if subs != [] {
      ApplyInOrderEmpty(subs[1..]);
    }
  }

  /** Characters that never survive escaping. */
  const Reserved: string := " ?%#/\""

  /**
   * Escaping removes every reserved character and never shortens the
   * message.
   */
  lemma {:induction false} EscapeEachRemovesReserved(s: string)
    ensures forall c :: c in Reserved ==> c !in EscapeEach(s)
    ensures |EscapeEach(s)| >= |s|
  {
    if s != [] {
      EscapeEachRemovesReserved(s[1..]);
    }
  }

  /** Hyphens are doubled before spaces become hyphens: "a b-c" becomes "a-b--c". */
  lemma EscapeExample()
    ensures EscapeEach("a b-c") == "a-b--c"
  {
  }

  /**
   * The escape loses information: a hyphen and two spaces, or a double quote
   * and two single quotes, come out the same.
   */
  lemma EscapeNotInjective()
    ensures EscapeEach("-") == EscapeEach("  ") == "--"
    ensures EscapeEach("\"") == EscapeEach("''") == "''"
  {
  }
}
