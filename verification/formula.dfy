/**
 * The `chemical_formula` template filter: every numeric character of a
 * formula is wrapped in an HTML subscript tag, everything else is copied.
 */
module ChemicalFormulaFilter {

  /** The characters `str.isnumeric` accepts, restricted to the ASCII digits. */
  predicate IsNumeric(c: char)
    ensures IsNumeric(c) <==> c in "0123456789"
  {
    '0' <= c <= '9'
  }

  /** What one character of the formula becomes. */
  function Image(c: char): (img: string)
    ensures IsNumeric(c) <==> |img| > 1
  {
    if IsNumeric(c) then "<sub>" + [c] + "</sub>" else [c]
  }

  /** The filter's result, built character by character from the left. */
  function Html(s: string): (h: string)
    ensures |h| >= |s|
  {
    if |s| == 0 then "" else Html(s[..|s| - 1]) + Image(s[|s| - 1])
  }

  /** How many numeric characters `s` holds. */
  function NumericCount(s: string): (n: nat)
    ensures n <= |s|
  {
    if |s| == 0 then 0 else NumericCount(s[..|s| - 1]) + (if IsNumeric(s[|s| - 1]) then 1 else 0)
  }

  /** The filter's loop: append each character, wrapped when it is numeric. */
  method FormulaToHtml(formula: string) returns (html: string)
    ensures html == Html(formula)
  {
    html := "";
    for i := 0 to |formula|
      invariant html == Html(formula[..i])
    {
      var character := [formula[i]];
      if IsNumeric(formula[i]) {
        character := "<sub>" + character + "</sub>";
      }
      html := html + character;
      assert formula[..i + 1][..i] == formula[..i];
    }
    assert formula[..|formula|] == formula;
  }

  /** A single character maps to its image: digits wrapped, others unchanged. */
  lemma HtmlOfChar(c: char)
    ensures IsNumeric(c) ==> Html([c]) == "<sub>" + [c] + "</sub>"
    ensures !IsNumeric(c) ==> Html([c]) == [c]
  {
    assert [c][..0] == [];
  }

  /** Appending one character appends its image. */
  lemma HtmlSnoc(s: string, c: char)
    ensures Html(s + [c]) == Html(s) + Image(c)
  {
    assert (s + [c])[..|s|] == s;
  }

  /** The filter maps concatenations to concatenations, so the input order is kept. */
  lemma {:induction false} HtmlAppend(a: string, b: string)
    ensures Html(a + b) == Html(a) + Html(b)
    decreases |b|
  {
    if |b| == 0 {
      assert a + b == a;
    } else {
      var b', last := b[..|b| - 1], b[|b| - 1];
      SnocSplit(a, b);
      HtmlSnoc(a + b', last);
      HtmlSnoc(b', last);
      HtmlAppend(a, b');
      Associative(Html(a), Html(b'), Image(last));
    }
  }

  /**
   * Splitting off the last character of `b` in `a + b`. Kept apart from
   * HtmlAppend so that this sequence fact is proved where no `Html` term can
   * be unfolded.
   */
  lemma SnocSplit(a: string, b: string)
    requires |b| > 0
    ensures b == b[..|b| - 1] + [b[|b| - 1]]
    ensures a + b == (a + b[..|b| - 1]) + [b[|b| - 1]]
  {
  }

  /** Concatenation is associative (kept apart from HtmlAppend for the same reason). */
  lemma Associative(x: string, y: string, z: string)
    ensures (x + y) + z == x + (y + z)
  {
  }

  /** Each numeric character adds the eleven characters of `<sub>` and `</sub>`. */
  lemma {:induction false} HtmlLength(s: string)
    ensures |Html(s)| == |s| + 11 * NumericCount(s)
  {
    if |s| > 0 {
      HtmlLength(s[..|s| - 1]);
    }
  }

  /** A formula without numeric characters comes back unchanged. */
  lemma {:induction false} HtmlKeepsPlainText(s: string)
    requires forall i :: 0 <= i < |s| ==> !IsNumeric(s[i])
    ensures Html(s) == s
  {
    if |s| > 0 {
      HtmlKeepsPlainText(s[..|s| - 1]);
      assert s[..|s| - 1] + [s[|s| - 1]] == s;
    }
  }

  lemma {:induction false} NumericCountPositive(s: string, i: nat)
    requires i < |s| && IsNumeric(s[i])
    ensures NumericCount(s) > 0
  {
    if i < |s| - 1 {
      NumericCountPositive(s[..|s| - 1], i);
    }
  }

  /** A formula with a numeric character always changes, so the filter is not idempotent. */
  lemma HtmlChangesDigits(s: string, i: nat)
    requires i < |s| && IsNumeric(s[i])
    ensures Html(s) != s
    ensures Html(Html(s)) != Html(s)
  {
    NumericCountPositive(s, i);
    HtmlLength(s);
    HtmlCharSurvives(s, i);
    var k :| 0 <= k < |Html(s)| && Html(s)[k] == s[i];
    NumericCountPositive(Html(s), k);
    HtmlLength(Html(s));
  }

  /** Every character of the input still appears in the output. */
  lemma {:induction false} HtmlCharSurvives(s: string, i: nat)
    requires i < |s|
    ensures exists k :: 0 <= k < |Html(s)| && Html(s)[k] == s[i]
  {
    var front := s[..|s| - 1];
    var last := Image(s[|s| - 1]);
    assert Html(s) == Html(front) + last;
    if i == |s| - 1 {
      var k := if IsNumeric(s[i]) then 5 else 0;
      assert last[k] == s[i];
      assert Html(s)[|Html(front)| + k] == s[i];
    } else {
      HtmlCharSurvives(front, i);
      var k :| 0 <= k < |Html(front)| && Html(front)[k] == front[i];
      assert Html(s)[k] == s[i];
    }
  }

  /** The first two characters of the documented example. */
  lemma ExampleHead()
    ensures Html("Y2") == "Y<sub>2</sub>"
  {
    assert "Y"[..0] == "";
    assert "Y2"[..1] == "Y";
  }

  /** The first four characters of the documented example. */
  lemma ExamplePrefix()
    ensures Html("Y2CF") == "Y<sub>2</sub>CF"
  {
    ExampleHead();
    assert "Y2C"[..2] == "Y2";
    assert "Y2CF"[..3] == "Y2C";
  }

  /** The example of the filter's documentation. */
  lemma FormulaExample()
    ensures Html("Y2CF2") == "Y<sub>2</sub>CF<sub>2</sub>"
  {
    ExamplePrefix();
    assert "Y2CF2"[..4] == "Y2CF";
    assert Image('2') == "<sub>2</sub>";
    assert Html("Y2CF2") == Html("Y2CF") + Image('2');
  }
}
