/**
  Column-selection helpers over a dataframe. A dataframe is abstracted as
  the ordered sequence of its column names: these helpers only ever read
  and rearrange that sequence, never the data beneath it.
 */
module Utils {
  import opened Results
  import opened Sequences

  type Name = string

  /** pandas' `KeyError` from `drop`: the requested labels the frame does not have. */
  datatype DropError = KeyError(missing: seq<Name>)

  /**
    `columns(df, pattern)`: the columns whose name the pattern matches, in
    frame order. The pattern is abstracted as the test it performs on a name.
   */
  function Columns(names: seq<Name>, matches: Name -> bool): (r: seq<Name>)
    ensures IsSubsequence(r, names)
    ensures forall x :: x in r <==> x in names && matches(x)
    ensures forall x :: multiset(r)[x] == if matches(x) then multiset(names)[x] else 0
  {
    FilterIsSubsequence(names, matches);
    forall x ensures x in Filter(names, matches) <==> x in names && matches(x) {
      FilterMembership(names, matches, x);
    }
    Filter(names, matches)
  }

  /** The characters that are special in a Python regular expression. */
  const REGEX_METACHARACTERS: set<char> := {'.', '^', '$', '*', '+', '?', '{', '}', '[', ']', '\\', '|', '(', ')'}

  /** `s` matches only itself when used as a regular expression. */
  predicate IsLiteral(s: string)
  {
    forall i :: 0 <= i < |s| ==> s[i] !in REGEX_METACHARACTERS
  }

  /** A pattern with its leading `^` anchor, if any, removed. */
  function Unanchored(pattern: string): string
  {
    if pattern != [] && pattern[0] == '^' then pattern[1..] else pattern
  }

  /**
    How `re.match` runs a pattern of literal characters from the start of the
    text: each pattern character must equal the next text character, and the
    match succeeds once the pattern is used up, whatever text remains.
   */
  predicate MatchLiterals(literal: string, text: string)
    requires IsLiteral(literal)
  {
    literal == [] ||
      (text != [] && literal[0] == text[0] &&
        assert IsLiteral(literal[1..]) by {
          assert forall i :: 0 <= i < |literal| - 1 ==> literal[1..][i] == literal[i + 1];
        }
        MatchLiterals(literal[1..], text[1..]))
  }

  /** Matching a literal from the start of the text is a prefix test. */
  lemma {:induction false} MatchLiteralsIsPrefix(literal: string, text: string)
    requires IsLiteral(literal)
    ensures MatchLiterals(literal, text) <==> literal <= text
  {
    if literal != [] && text != [] {
      assert IsLiteral(literal[1..]) by {
        assert forall i :: 0 <= i < |literal| - 1 ==> literal[1..][i] == literal[i + 1];
      }
      MatchLiteralsIsPrefix(literal[1..], text[1..]);
      assert literal <= text <==> literal[0] == text[0] && literal[1..] <= text[1..] by {
        assert literal == [literal[0]] + literal[1..];
        assert text == [text[0]] + text[1..];
      }
    }
  }

  /**
    Python's `re.match(pattern, text)` for a pattern made of an optional
    leading `^` followed by literal characters. `re.match` only tries
    position 0, where the anchor always holds, so what remains is matching
    the literal characters from the start of the text.
   */
  predicate MatchAnchoredLiteral(pattern: string, text: string): (m: bool)
    requires IsLiteral(Unanchored(pattern))
    ensures m <==> Unanchored(pattern) <= text
  {
    MatchLiteralsIsPrefix(Unanchored(pattern), text);
    MatchLiterals(Unanchored(pattern), text)
  }

  /**
    `starts(df, string)`: the columns matching `'^' + string`. For a
    literal `string` these are exactly the columns whose name begins with it.
   */
  function Starts(names: seq<Name>, prefix: string): (r: seq<Name>)
    requires IsLiteral(prefix)
    ensures IsSubsequence(r, names)
    ensures forall x :: x in r <==> x in names && prefix <= x
    ensures forall x :: multiset(r)[x] == if prefix <= x then multiset(names)[x] else 0
  {
    var pattern := "^" + prefix;
    assert Unanchored(pattern) == prefix;
    Columns(names, x => MatchAnchoredLiteral(pattern, x))
  }

  /** `df.columns[df.columns.isin(cols)]`: the frame's columns that are requested, in frame order. */
  function Present(names: seq<Name>, cols: seq<Name>): (r: seq<Name>)
    ensures IsSubsequence(r, names)
    ensures forall x :: x in r <==> x in names && x in cols
    ensures forall x :: multiset(r)[x] == if x in cols then multiset(names)[x] else 0
  {
    FilterIsSubsequence(names, y => y in cols);
    forall x ensures x in Filter(names, y => y in cols) <==> x in names && x in cols {
      FilterMembership(names, y => y in cols, x);
    }
    Filter(names, y => y in cols)
  }

  /**
    `df.drop(columns=labels)`: fails with the absent labels, in request
    order, if any label is not a column; otherwise removes every column
    named by a label and keeps the rest in frame order.
   */
  function Drop(names: seq<Name>, labels: seq<Name>): (r: Result<seq<Name>, DropError>)
    ensures r.Err? <==> exists l :: l in labels && l !in names
    ensures r.Err? ==> r.error.missing != [] && forall l :: l in r.error.missing <==> l in labels && l !in names
    ensures r.Ok? ==> IsSubsequence(r.value, names)
    ensures r.Ok? ==> forall x :: multiset(r.value)[x] == if x in labels then 0 else multiset(names)[x]
  {
    var missing := Filter(labels, l => l !in names);
    forall l ensures l in missing <==> l in labels && l !in names {
      FilterMembership(labels, l => l !in names, l);
    }
    if missing != [] then Err(KeyError(missing))
    else
      FilterIsSubsequence(names, x => x !in labels);
      Ok(Filter(names, x => x !in labels))
  }

  /**
    `dropcols(df, cols, missing_ok)`. With `missing_ok` the request is first
    cut down to the columns the frame has, so absent names are ignored; without
    it the request goes to `drop` as it is, and an absent name is an error.
   */
  function Dropcols(names: seq<Name>, cols: seq<Name>, missingOk: bool): (r: Result<seq<Name>, DropError>)
    ensures missingOk ==> r.Ok?
    ensures r.Err? <==> !missingOk && exists c :: c in cols && c !in names
    ensures r.Ok? ==> IsSubsequence(r.value, names)
    ensures r.Ok? ==> forall x :: x in r.value <==> x in names && x !in cols
    ensures r.Ok? ==> forall x :: multiset(r.value)[x] == if x in cols then 0 else multiset(names)[x]
  {
    var labels := if missingOk then Present(names, cols) else cols;
    var r := Drop(names, labels);
    assert r.Ok? ==> forall x :: x in r.value <==> x in names && x !in cols by {
      if r.Ok? {
        forall x ensures x in r.value <==> x in names && x !in cols {
          assert x in r.value <==> multiset(r.value)[x] > 0;
          assert x in names <==> multiset(names)[x] > 0;
        }
      }
    }
    r
  }

  /** With `missing_ok`, the result is exactly the frame's columns outside the request, in order. */
  lemma DropcolsIsFilter(names: seq<Name>, cols: seq<Name>)
    ensures Dropcols(names, cols, true) == Ok(Filter(names, x => x !in cols))
  {
    var present := Present(names, cols);
    FilterCongruent(names, x => x !in present, x => x !in cols);
  }

  /** Without `missing_ok`, a request naming only existing columns drops the same columns. */
  lemma DropcolsStrictAgrees(names: seq<Name>, cols: seq<Name>)
    requires forall c :: c in cols ==> c in names
    ensures Dropcols(names, cols, false) == Dropcols(names, cols, true)
  {
    DropcolsIsFilter(names, cols);
  }

  /** A request that names none of the frame's columns leaves the frame as it is. */
  lemma DropcolsDisjointUnchanged(names: seq<Name>, cols: seq<Name>)
    requires forall c :: c in cols ==> c !in names
    ensures Dropcols(names, cols, true) == Ok(names)
  {
    DropcolsIsFilter(names, cols);
    FilterKeepsAll(names, x => x !in cols);
  }

  /** Dropping the same columns a second time changes nothing. */
  lemma DropcolsIdempotent(names: seq<Name>, cols: seq<Name>)
    ensures Dropcols(names, cols, true).Ok?
    ensures Dropcols(Dropcols(names, cols, true).value, cols, true) == Dropcols(names, cols, true)
  {
    var once := Dropcols(names, cols, true).value;
    DropcolsDisjointUnchanged(once, cols);
  }

}
