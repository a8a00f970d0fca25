/**
 * The square notation of the console game: a column letter a..h followed
 * by a row digit 1..8, so square 19 (row 2, column 3) is "d3".
 */
module Notation {
  import opened Wrappers
  import opened Board
  import opened Geometry

  /** The notation of a board square. */
  function ToNotation(p: int): (r: string)
    requires IsSquare(p)
    ensures |r| == 2 && 'a' <= r[0] <= 'h' && '1' <= r[1] <= '8'
  {
    [('a' as int + Col(p)) as char, ('1' as int + Row(p)) as char]
  }

  /** The three ways parsing refuses a string; the parser raises ValueError for each. */
  datatype NotationError = InvalidFormat | NotANumber | OutOfBounds

  predicate IsDigit(c: char) {
    '0' <= c <= '9'
  }

  /**
   * Parse a notation: a string that is not two characters long is an
   * invalid format; a second character that is not a digit is refused by
   * the integer conversion; a column outside a..h or a row digit outside
   * 1..8 is out of bounds.
   */
  function FromNotation(n: string): (r: Result<int, NotationError>)
    ensures |n| != 2 ==> r == Err(InvalidFormat)
    ensures |n| == 2 && !IsDigit(n[1]) ==> r == Err(NotANumber)
    ensures |n| == 2 && IsDigit(n[1]) && r.Err? ==> r == Err(OutOfBounds)
    ensures r.Ok? <==> |n| == 2 && 'a' <= n[0] <= 'h' && '1' <= n[1] <= '8'
    ensures r.Ok? ==> IsSquare(r.value)
  {
    if |n| != 2 then Err(InvalidFormat)
    else
      var col := n[0] as int - 'a' as int;
      if !IsDigit(n[1]) then Err(NotANumber)
      else
        var row := (n[1] as int - '0' as int) - 1;
        if !(0 <= col < 8 && 0 <= row < 8) then Err(OutOfBounds)
        else Ok(row * 8 + col)
  }

  /** Parsing the notation of a square gives the square back. */
  lemma PositionRoundTrip(p: int)
    requires IsSquare(p)
    ensures FromNotation(ToNotation(p)) == Ok(p)
  {
  }

  /** Every string the parser accepts is the notation of the square it parses to. */
  lemma NotationRoundTrip(n: string)
    requires FromNotation(n).Ok?
    ensures ToNotation(FromNotation(n).value) == n
  {
    var p := FromNotation(n).value;
    assert Col(p) == n[0] as int - 'a' as int;
    assert Row(p) == n[1] as int - '1' as int;
  }

  /** Two squares with the same notation are the same square. */
  lemma NotationInjective(p: int, q: int)
    requires IsSquare(p) && IsSquare(q) && ToNotation(p) == ToNotation(q)
    ensures p == q
  {
    PositionRoundTrip(p);
    PositionRoundTrip(q);
  }

  /** String order: character by character, a proper prefix first. */
  predicate LexLe(a: string, b: string) {
    |a| == 0 || (|b| > 0 && (a[0] < b[0] || (a[0] == b[0] && LexLe(a[1..], b[1..]))))
  }

  lemma {:induction false} LexTotal(a: string, b: string)
    ensures LexLe(a, b) || LexLe(b, a)
  {
    if |a| > 0 && |b| > 0 && a[0] == b[0] {
      LexTotal(a[1..], b[1..]);
    }
  }

  predicate Sorted(xs: seq<string>) {
    forall i :: 0 <= i < |xs| - 1 ==> LexLe(xs[i], xs[i + 1])
  }

  /** Insert `x` before the first element it does not follow. */
  function Insert(x: string, xs: seq<string>): (r: seq<string>)
    requires Sorted(xs)
    ensures Sorted(r) && multiset(r) == multiset(xs) + multiset{x} && |r| == |xs| + 1
    ensures r != [] && (r[0] == x || (xs != [] && r[0] == xs[0]))
  {
    if xs == [] then [x]
    else if LexLe(x, xs[0]) then [x] + xs
    else
      LexTotal(x, xs[0]);
      var rest := Insert(x, xs[1..]);
      assert xs == [xs[0]] + xs[1..];
      [xs[0]] + rest
  }

  /** Insertion sort on strings. */
  function SortStrings(xs: seq<string>): (r: seq<string>)
    ensures Sorted(r) && multiset(r) == multiset(xs) && |r| == |xs|
  {
    if xs == [] then []
    else
      assert xs == [xs[0]] + xs[1..];
      Insert(xs[0], SortStrings(xs[1..]))
  }

  /** Notations joined with ", ". */
  function Join(xs: seq<string>): string {
    if xs == [] then ""
    else if |xs| == 1 then xs[0]
    else xs[0] + ", " + Join(xs[1..])
  }

  predicate AllNotations(xs: seq<string>) {
    forall i :: 0 <= i < |xs| ==> |xs[i]| == 2
  }

  /**
   * The joined text of two-character notations can be cut back into them:
   * notation k sits at offset 4k, and a separator follows every notation
   * but the last.
   */
  lemma {:induction false} JoinLayout(xs: seq<string>)
    requires AllNotations(xs)
    ensures |Join(xs)| == if xs == [] then 0 else 4 * |xs| - 2
    ensures forall k :: 0 <= k < |xs| ==> Join(xs)[4 * k .. 4 * k + 2] == xs[k]
    ensures forall k :: 0 <= k < |xs| - 1 ==> Join(xs)[4 * k + 2 .. 4 * k + 4] == ", "
  {
    if |xs| > 1 {
      var tail := xs[1..];
      JoinLayout(tail);
      var r := Join(xs);
      assert r == xs[0] + ", " + Join(tail);
      forall k | 0 <= k < |xs|
        ensures r[4 * k .. 4 * k + 2] == xs[k]
      {
        if k > 0 {
          assert r[4 * k .. 4 * k + 2] == Join(tail)[4 * (k - 1) .. 4 * (k - 1) + 2];
        }
      }
      forall k | 0 <= k < |xs| - 1
        ensures r[4 * k + 2 .. 4 * k + 4] == ", "
      {
        if k > 0 {
          assert r[4 * k + 2 .. 4 * k + 4] == Join(tail)[4 * (k - 1) + 2 .. 4 * (k - 1) + 4];
        }
      }
    }
  }

  function Notations(moves: seq<int>): (r: seq<string>)
    requires forall i :: 0 <= i < |moves| ==> IsSquare(moves[i])
    ensures |r| == |moves| && AllNotations(r)
    ensures forall i :: 0 <= i < |moves| ==> r[i] == ToNotation(moves[i])
  {
    if moves == [] then [] else [ToNotation(moves[0])] + Notations(moves[1..])
  }

  /**
   * The legal-move listing: the notations of the moves in string order (by
   * column letter first, then row digit), joined with ", ".
   */
  function FormatMoves(moves: seq<int>): (r: string)
    requires forall i :: 0 <= i < |moves| ==> IsSquare(moves[i])
    ensures moves == [] <==> r == ""
  {
    var sorted := SortStrings(Notations(moves));
    assert moves != [] ==> Notations(moves)[0] in multiset(sorted);
    Join(sorted)
  }

  /**
   * The listing holds every move's notation exactly once per occurrence,
   * in string order, at offsets 0, 4, 8, ... with ", " between them.
   */
  lemma FormatMovesMeaning(moves: seq<int>)
    requires forall i :: 0 <= i < |moves| ==> IsSquare(moves[i])
    ensures var sorted := SortStrings(Notations(moves));
            && Sorted(sorted) && multiset(sorted) == multiset(Notations(moves))
            && |FormatMoves(moves)| == (if moves == [] then 0 else 4 * |moves| - 2)
            && (forall k :: 0 <= k < |moves| ==> FormatMoves(moves)[4 * k .. 4 * k + 2] == sorted[k])
            && (forall k :: 0 <= k < |moves| - 1 ==> FormatMoves(moves)[4 * k + 2 .. 4 * k + 4] == ", ")
  {
    var sorted := SortStrings(Notations(moves));
    assert AllNotations(sorted) by {
      forall i | 0 <= i < |sorted|
        ensures |sorted[i]| == 2
      {
        assert sorted[i] in multiset(Notations(moves));
      }
    }
    JoinLayout(sorted);
  }

  /** The notations of the examples in the move listing. */
  lemma NotationExamples()
    ensures ToNotation(19) == "d3" && ToNotation(44) == "e6"
    ensures FromNotation("d3") == Ok(19) && FromNotation("e6") == Ok(44)
    ensures FromNotation("i1") == Err(OutOfBounds) && FromNotation("a9") == Err(OutOfBounds)
    ensures FromNotation("a0") == Err(OutOfBounds) && FromNotation("ax") == Err(NotANumber)
    ensures FromNotation("d10") == Err(InvalidFormat)
  {
  }

  lemma SortExample()
    ensures SortStrings(["e2", "d3"]) == ["d3", "e2"]
  {
    assert !LexLe("e2", "d3");
    assert SortStrings(["d3"]) == ["d3"];
    assert Insert("e2", ["d3"]) == ["d3", "e2"];
  }

  lemma NotationsExample()
    ensures Notations([12, 19]) == ["e2", "d3"]
  {
  }

  lemma JoinExample()
    ensures Join(["d3", "e2"]) == "d3, e2"
  {
    assert Join(["e2"]) == "e2";
  }

  /** The listing orders by column letter, not by square: square 12 ("e2") comes after square 19 ("d3"). */
  lemma FormatOrdersByLetter()
    ensures FormatMoves([12, 19]) == "d3, e2"
  {
    NotationsExample();
    SortExample();
    JoinExample();
  }
}
