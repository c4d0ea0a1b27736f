/** String operations the notifier borrows from its host language: the
    substring replacement that turns a unit name into an id, and the
    split on a separator that turns the command-line argument into the
    watch list (with the join that undoes it). */
module Text {

  /** True when `pat` occurs somewhere in `s`. */
  predicate Occurs(s: string, pat: string)
    decreases |s|
  {
    pat <= s || (s != [] && Occurs(s[1..], pat))
  }

  /** `s.replace(pat, rep)` for a non-empty `pat`: one left-to-right pass that
      replaces every non-overlapping occurrence of `pat`, the leftmost first. */
  function Replace(s: string, pat: string, rep: string): string
    requires pat != []
    decreases |s|
  {
    if s == [] then []
    else if pat <= s then rep + Replace(s[|pat|..], pat, rep)
    else [s[0]] + Replace(s[1..], pat, rep)
  }

  /** A string in which the pattern does not occur comes back unchanged. */
  lemma {:induction false} ReplaceAbsent(s: string, pat: string, rep: string)
    requires pat != []
    requires !Occurs(s, pat)
    ensures Replace(s, pat, rep) == s
    decreases |s|
  {
    if s != [] {
      ReplaceAbsent(s[1..], pat, rep);
    }
  }

  /** An occurrence at the very start is replaced, and the pass goes on
      right after it. */
  lemma ReplaceLeading(pat: string, s: string, rep: string)
    requires pat != []
    ensures Replace(pat + s, pat, rep) == rep + Replace(s, pat, rep)
  {
    assert pat <= pat + s;
    assert (pat + s)[|pat|..] == s;
  }

  /** Removing the pattern from `pat + s`, where `s` holds no further
      occurrence, strips exactly the leading `pat`. */
  lemma StripLeading(pat: string, s: string)
    requires pat != []
    requires !Occurs(s, pat)
    ensures Replace(pat + s, pat, []) == s
  {
    ReplaceLeading(pat, s, []);
    ReplaceAbsent(s, pat, []);
  }

  /** Removal (an empty replacement) keeps the length exactly when the
      pattern does not occur, and shortens the string otherwise. */
  lemma {:induction false} RemoveLength(s: string, pat: string)
    requires pat != []
    ensures |Replace(s, pat, [])| <= |s|
    ensures |Replace(s, pat, [])| == |s| <==> !Occurs(s, pat)
    decreases |s|
  {
    if s == [] {
    } else if pat <= s {
      RemoveLength(s[|pat|..], pat);
    } else {
      RemoveLength(s[1..], pat);
    }
  }

  /** Removal changes a string if and only if the pattern occurs in it. */
  lemma RemoveChanges(s: string, pat: string)
    requires pat != []
    ensures Replace(s, pat, []) == s <==> !Occurs(s, pat)
  {
    RemoveLength(s, pat);
    if !Occurs(s, pat) {
      ReplaceAbsent(s, pat, []);
    }
  }

  /** The number of occurrences of `c` in `s`. */
  function Count(s: string, c: char): nat
    decreases |s|
  {
    if s == [] then 0
    else (if s[0] == c then 1 else 0) + Count(s[1..], c)
  }

  /** Joins the parts with `sep` between neighbours (`sep.join(parts)`). */
  function Join(parts: seq<string>, sep: char): string
  {
    if parts == [] then []
    else if |parts| == 1 then parts[0]
    else parts[0] + [sep] + Join(parts[1..], sep)
  }

  /** Joining a non-empty tail behind a first part puts one separator
      between them. */
  lemma JoinCons(p: string, rest: seq<string>, sep: char)
    requires rest != []
    ensures Join([p] + rest, sep) == p + [sep] + Join(rest, sep)
  {
    assert ([p] + rest)[1..] == rest;
  }

  /** Gluing a character onto the first part glues it onto the join. */
  lemma JoinGlue(c: char, rest: seq<string>, sep: char)
    requires rest != []
    ensures Join([[c] + rest[0]] + rest[1..], sep) == [c] + Join(rest, sep)
  {
    if |rest| > 1 {
      JoinCons([c] + rest[0], rest[1..], sep);
      JoinCons(rest[0], rest[1..], sep);
      assert [rest[0]] + rest[1..] == rest;
    }
  }

  /** `s.split(sep)` for a one-character separator: the pieces between the
      separators, empty pieces included; the empty string gives one empty
      piece. */
  function Split(s: string, sep: char): (parts: seq<string>)
    ensures |parts| == Count(s, sep) + 1
    ensures forall i :: 0 <= i < |parts| ==> sep !in parts[i]
    ensures Join(parts, sep) == s
    decreases |s|
  {
    if s == [] then [[]]
    else
      var rest := Split(s[1..], sep);
      assert s == [s[0]] + s[1..];
      if s[0] == sep then
        JoinCons([], rest, sep);
        [[]] + rest
      else
        JoinGlue(s[0], rest, sep);
        [[s[0]] + rest[0]] + rest[1..]
  }

  /** One step of the split: a leading character either closes the first
      (empty) piece or is glued onto it. */
  lemma SplitCons(c: char, x: string, sep: char)
    ensures Split([c] + x, sep) ==
      if c == sep then [[]] + Split(x, sep)
      else [[c] + Split(x, sep)[0]] + Split(x, sep)[1..]
  {
    assert ([c] + x)[1..] == x;
  }

  /** Concatenation re-associated around the first character. */
  lemma HeadTail(p: string, x: string)
    requires p != []
    ensures p + x == [p[0]] + (p[1..] + x)
  {
  }

  /** Splitting a separator-free prefix onto the front of a string glues it
      to the first piece. */
  lemma {:induction false} SplitPrefix(p: string, x: string, sep: char)
    requires sep !in p
    ensures Split(p + x, sep) == [p + Split(x, sep)[0]] + Split(x, sep)[1..]
    decreases |p|
  {
    var parts := Split(x, sep);
    if p != [] {
      var inner := Split(p[1..] + x, sep);
      SplitPrefix(p[1..], x, sep);
      assert p[0] != sep by { assert p[0] in p; }
      calc {
        Split(p + x, sep);
        { HeadTail(p, x); }
        Split([p[0]] + (p[1..] + x), sep);
        { SplitCons(p[0], p[1..] + x, sep); }
        [[p[0]] + inner[0]] + inner[1..];
        { assert inner[0] == p[1..] + parts[0] && inner[1..] == parts[1..]; }
        [[p[0]] + (p[1..] + parts[0])] + parts[1..];
        { HeadTail(p, parts[0]); }
        [p + parts[0]] + parts[1..];
      }
    } else {
      assert p + x == x;
      assert p + parts[0] == parts[0];
      assert [parts[0]] + parts[1..] == parts;
    }
  }

  /** A separator-free string is a single piece. */
  lemma SplitPart(p: string, sep: char)
    requires sep !in p
    ensures Split(p, sep) == [p]
  {
    SplitPrefix(p, [], sep);
    assert p + [] == p;
    assert Split([], sep) == [[]];
  }

  /** A separator-free part followed by a separator splits off as the
      first piece. */
  lemma SplitAfterPart(p: string, tail: string, sep: char)
    requires sep !in p
    ensures Split(p + ([sep] + tail), sep) == [p] + Split(tail, sep)
  {
    SplitPrefix(p, [sep] + tail, sep);
    SplitCons(sep, tail, sep);
    assert p + [] == p;
  }

  /** Splitting the join of non-empty, separator-free parts gives the parts
      back: together with the contract of `Split`, split and join are
      inverse to each other. */
  lemma {:induction false} SplitJoin(parts: seq<string>, sep: char)
    requires parts != []
    requires forall i :: 0 <= i < |parts| ==> sep !in parts[i]
    ensures Split(Join(parts, sep), sep) == parts
    decreases |parts|
  {
    var p := parts[0];
    if |parts| == 1 {
      SplitPart(p, sep);
      assert parts == [p];
    } else {
      var rest := parts[1..];
      SplitJoin(rest, sep);
      assert [p] + rest == parts;
      JoinCons(p, rest, sep);
      assert Join(parts, sep) == p + ([sep] + Join(rest, sep));
      SplitAfterPart(p, Join(rest, sep), sep);
    }
  }
}
