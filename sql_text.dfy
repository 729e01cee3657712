// SqlText: the UPDATE statement text that the two batch paths of the rule
// service (src/services/rule_service.rs, `apply_rule_to_all_transactions`
// and `apply_all_rules_to_all_transactions`) build for one transaction, and
// how SQL reads it back. The values are pasted between single quotes as
// they are; SQL reads a single quote inside a literal as its end, so a
// value holding an apostrophe ends its literal early. The statement with
// the quotes doubled (as `update_transaction` does for the category) is read
// back as exactly the patch that `RuleService.PatchRow` writes.
// The single-row updates paste some values the same way: the description
// and destination name of `update_transaction`
// (src/services/transaction_service.rs) and the name of `update_category`
// (src/services/category_service.rs); the last section shows what such a
// value does to their statements.

module SqlText {
  import opened Base
  import opened Text
  import opened Uuids
  import opened Schema
  import opened RuleService

  const Head := "UPDATE transactions SET updated_at = $1"
  const Tail := " WHERE id = $2"

  datatype Column = CategoryColumn | BudgetColumn | DescriptionColumn | DestinationNameColumn

  function ColumnName(c: Column): string {
    match c
    case CategoryColumn => "category"
    case BudgetColumn => "budget_id"
    case DescriptionColumn => "description"
    case DestinationNameColumn => "destination_name"
  }

  // ---------------------------------------------------------------------
  // Literals

  /** `'{}'` as the batch paths write it: the value between quotes. */
  function QuoteAsWritten(v: string): (r: string)
    ensures |r| == |v| + 2 && r[0] == '\'' && r[|r| - 1] == '\''
  {
    "'" + v + "'"
  }

  /** Every single quote doubled (`replace("'", "''")`). */
  function Escape(v: string): (r: string)
    ensures |r| >= |v|
    ensures '\'' !in v ==> r == v
  {
    if v == [] then []
    else (if v[0] == '\'' then "''" else [v[0]]) + Escape(v[1..])
  }

  /** The literal with its quotes doubled. */
  function QuoteEscaped(v: string): (r: string)
    ensures '\'' !in v ==> r == QuoteAsWritten(v)
  {
    "'" + Escape(v) + "'"
  }

  /** SQL reading the inside of a string literal: `''` stands for one quote
      and a lone quote ends the literal. The value and what follows the
      closing quote; None when no quote closes it. */
  function ReadBody(s: string): (r: Option<(string, string)>)
    ensures r.Some? ==> |r.value.1| < |s|
    decreases |s|
  {
    if s == [] then None
    else if s[0] == '\'' then
      if |s| >= 2 && s[1] == '\'' then
        match ReadBody(s[2..])
        case None => None
        case Some(p) => Some(("'" + p.0, p.1))
      else Some(([], s[1..]))
    else
      match ReadBody(s[1..])
      case None => None
      case Some(p) => Some(([s[0]] + p.0, p.1))
  }

  function ReadLiteral(s: string): (r: Option<(string, string)>)
    ensures r.Some? ==> |r.value.1| < |s|
  {
    if s != [] && s[0] == '\'' then ReadBody(s[1..]) else None
  }

  lemma ReadBodyPair(t: string)
    ensures ReadBody("''" + t) == (match ReadBody(t) case None => None case Some(p) => Some(("'" + p.0, p.1)))
  {
    assert ("''" + t)[2..] == t;
  }

  lemma ReadBodyPlain(c: char, t: string)
    requires c != '\''
    ensures ReadBody([c] + t) == (match ReadBody(t) case None => None case Some(p) => Some(([c] + p.0, p.1)))
  {
    assert ([c] + t)[1..] == t;
  }

  lemma ReadBodyClose(rest: string)
    requires rest == [] || rest[0] != '\''
    ensures ReadBody("'" + rest) == Some(([], rest))
  {
    assert ("'" + rest)[1..] == rest;
  }

  /** An escaped literal reads back as its value, whatever follows it
      (unless that starts with a quote itself). */
  lemma Reassociate(a: string, b: string, c: string, d: string)
    ensures a + b + c + d == a + (b + c + d)
  {
  }

  lemma {:induction false} ReadEscapedBody(v: string, rest: string)
    requires rest == [] || rest[0] != '\''
    ensures ReadBody(Escape(v) + "'" + rest) == Some((v, rest))
    decreases |v|
  {
    if v == [] {
      ReadBodyClose(rest);
    } else {
      ReadEscapedBody(v[1..], rest);
      var e := Escape(v[1..]);
      var tail := e + "'" + rest;
      if v[0] == '\'' {
        assert Escape(v) + "'" + rest == "''" + tail by {
          assert Escape(v) == "''" + e;
          Reassociate("''", e, "'", rest);
        }
        ReadBodyPair(tail);
      } else {
        assert Escape(v) + "'" + rest == [v[0]] + tail by {
          assert Escape(v) == [v[0]] + e;
          Reassociate([v[0]], e, "'", rest);
        }
        ReadBodyPlain(v[0], tail);
      }
      assert v == [v[0]] + v[1..];
    }
  }

  lemma ReadEscaped(v: string, rest: string)
    requires rest == [] || rest[0] != '\''
    ensures ReadLiteral(QuoteEscaped(v) + rest) == Some((v, rest))
  {
    ReadEscapedBody(v, rest);
    assert (QuoteEscaped(v) + rest)[1..] == Escape(v) + "'" + rest;
  }

  // ---------------------------------------------------------------------
  // The statement

  /** The columns a patch sets, in the order the batch paths write them. */
  function Assignments(p: UpdateTransactionRequest): (r: seq<(Column, string)>)
    ensures |r| == 0 <==> !p.SetsRuleField()
  {
    (if p.category.Some? then [(CategoryColumn, p.category.value)] else [])
    + (if p.budgetId.Some? then [(BudgetColumn, ToString(p.budgetId.value))] else [])
    + (if p.description.Some? then [(DescriptionColumn, p.description.value)] else [])
    + (if p.destinationName.Some? then [(DestinationNameColumn, p.destinationName.value)] else [])
  }

  function AssignmentTexts(pairs: seq<(Column, string)>, quote: string -> string): (r: seq<string>)
    ensures |r| == |pairs|
  {
    seq(|pairs|, i requires 0 <= i < |pairs| => ColumnName(pairs[i].0) + " = " + quote(pairs[i].1))
  }

  /** The statement text for a patch, given how a value is quoted:
      `updated_at`, then ", " and the assignments joined by ", ". */
  function Statement(p: UpdateTransactionRequest, quote: string -> string): string {
    var params := AssignmentTexts(Assignments(p), quote);
    Head + (if params == [] then "" else ", " + Join(params, ", ")) + Tail
  }

  /** The statement as the batch paths build it. */
  function AsWrittenStatement(p: UpdateTransactionRequest): string {
    Statement(p, QuoteAsWritten)
  }

  /** The statement with every value escaped. */
  function UpdateStatement(p: UpdateTransactionRequest): string {
    Statement(p, QuoteEscaped)
  }

  // ---------------------------------------------------------------------
  // Reading a statement back

  /** The column whose assignment `t` starts with. */
  function ReadColumn(t: string): (r: Option<Column>)
    ensures r.Some? ==> StartsWith(t, ColumnName(r.value) + " = ")
  {
    if StartsWith(t, "category = ") then Some(CategoryColumn)
    else if StartsWith(t, "budget_id = ") then Some(BudgetColumn)
    else if StartsWith(t, "description = ") then Some(DescriptionColumn)
    else if StartsWith(t, "destination_name = ") then Some(DestinationNameColumn)
    else None
  }

  /** The assignments after `updated_at = $1`, up to the WHERE clause; None
      when the text is not well formed. */
  function ParseAssignments(s: string): Option<seq<(Column, string)>>
    decreases |s|
  {
    if |s| >= 2 && s[0] == ',' && s[1] == ' ' then
      var t := s[2..];
      match ReadColumn(t)
      case None => None
      case Some(c) =>
        match ReadLiteral(t[|ColumnName(c)| + 3..])
        case None => None
        case Some(lit) =>
          match ParseAssignments(lit.1)
          case None => None
          case Some(more) => Some([(c, lit.0)] + more)
    else if s == Tail then Some([])
    else None
  }

  function ParseStatement(s: string): Option<seq<(Column, string)>> {
    if StartsWith(s, Head) then ParseAssignments(s[|Head|..]) else None
  }

  /** What the database does with the assignments to a row (the new
      `updated_at` is set by `$1`): None when a `budget_id` is not a uuid. */
  function Apply(row: Transaction, pairs: seq<(Column, string)>): Option<Transaction>
    decreases |pairs|
  {
    if pairs == [] then Some(row)
    else
      var (c, v) := pairs[0];
      match c
      case CategoryColumn => Apply(row.(category := v), pairs[1..])
      case BudgetColumn =>
        (match ParseUuid(v)
         case None => None
         case Some(u) => Apply(row.(budgetId := Some(u)), pairs[1..]))
      case DescriptionColumn => Apply(row.(description := v), pairs[1..])
      case DestinationNameColumn => Apply(row.(destinationName := Some(v)), pairs[1..])
  }

  /** ", " before each text. */
  function Prefixed(ps: seq<string>): string
    decreases |ps|
  {
    if ps == [] then "" else ", " + ps[0] + Prefixed(ps[1..])
  }

  lemma {:induction false} JoinPrefixed(ps: seq<string>)
    requires |ps| >= 1
    ensures ", " + Join(ps, ", ") == Prefixed(ps)
    decreases |ps|
  {
    if |ps| > 1 {
      JoinPrefixed(ps[1..]);
    }
  }

  lemma ReadColumnOf(c: Column, rest: string)
    ensures ReadColumn(ColumnName(c) + " = " + rest) == Some(c)
  {
    var t := ColumnName(c) + " = " + rest;
    match c
    case CategoryColumn =>
      assert t[..11] == "category = ";
    case BudgetColumn =>
      assert t[0] == 'b';
      assert t[..12] == "budget_id = ";
    case DescriptionColumn =>
      assert t[0] == 'd';
      assert t[..14] == "description = ";
    case DestinationNameColumn =>
      assert t[0] == 'd' && t[3] == 't';
      assert t[..19] == "destination_name = ";
  }

  /** `a + b` starts with `a`, followed by `b`. */
  lemma StartsWithConcat(a: string, b: string)
    ensures StartsWith(a + b, a) && (a + b)[|a|..] == b
  {
    assert (a + b)[..|a|] == a;
  }

  /** The unfolding of `ParseAssignments` on text that starts with ", ". */
  lemma ParseAssignmentsComma(s: string)
    requires |s| >= 2 && s[0] == ',' && s[1] == ' '
    ensures ParseAssignments(s) ==
      match ReadColumn(s[2..])
      case None => None
      case Some(c) =>
        match ReadLiteral(s[2..][|ColumnName(c)| + 3..])
        case None => None
        case Some(lit) =>
          match ParseAssignments(lit.1)
          case None => None
          case Some(more) => Some([(c, lit.0)] + more)
  {
  }

  /** An assignment of column `c`: its literal is read from what follows
      " = ", and parsing carries on after the literal. */
  lemma ParseAssignmentStep(c: Column, rest: string)
    ensures ParseAssignments(", " + (ColumnName(c) + " = " + rest)) ==
      match ReadLiteral(rest)
      case None => None
      case Some(lit) =>
        match ParseAssignments(lit.1)
        case None => None
        case Some(more) => Some([(c, lit.0)] + more)
  {
    var t := ColumnName(c) + " = " + rest;
    var s := ", " + t;
    assert s[2..] == t;
    ParseAssignmentsComma(s);
    ReadColumnOf(c, rest);
    StartsWithConcat(ColumnName(c) + " = ", rest);
  }

  lemma ParseOne(c: Column, v: string, more: string, ms: seq<(Column, string)>)
    requires more != [] && (more[0] == ',' || more[0] == ' ')
    requires ParseAssignments(more) == Some(ms)
    ensures ParseAssignments(", " + ((ColumnName(c) + " = " + QuoteEscaped(v)) + more)) == Some([(c, v)] + ms)
  {
    var lit := QuoteEscaped(v) + more;
    assert (ColumnName(c) + " = " + QuoteEscaped(v)) + more == ColumnName(c) + " = " + lit;
    ParseAssignmentStep(c, lit);
    ReadEscaped(v, more);
  }


  lemma Regroup(w: string, x: string, y: string, z: string)
    ensures w + x + y + z == w + (x + (y + z))
  {
  }

  lemma PrefixedCons(pairs: seq<(Column, string)>)
    requires pairs != []
    ensures Prefixed(AssignmentTexts(pairs, QuoteEscaped))
            == ", " + (ColumnName(pairs[0].0) + " = " + QuoteEscaped(pairs[0].1)) + Prefixed(AssignmentTexts(pairs[1..], QuoteEscaped))
  {
    assert AssignmentTexts(pairs, QuoteEscaped)[1..] == AssignmentTexts(pairs[1..], QuoteEscaped);
  }

  /** What follows an assignment starts with ", " or with the WHERE clause. */
  lemma FollowerStart(pairs: seq<(Column, string)>)
    ensures var more := Prefixed(AssignmentTexts(pairs, QuoteEscaped)) + Tail;
      more != [] && (more[0] == ',' || more[0] == ' ')
  {
    if pairs != [] {
      PrefixedCons(pairs);
    }
  }

  /** The text of a non-empty list of assignments, followed by the WHERE
      clause, is the first assignment followed by the rest. */
  lemma PrefixedConsTail(pairs: seq<(Column, string)>)
    requires pairs != []
    ensures Prefixed(AssignmentTexts(pairs, QuoteEscaped)) + Tail
         == ", " + ((ColumnName(pairs[0].0) + " = " + QuoteEscaped(pairs[0].1)) + (Prefixed(AssignmentTexts(pairs[1..], QuoteEscaped)) + Tail))
  {
    PrefixedCons(pairs);
    Regroup(", ", ColumnName(pairs[0].0) + " = " + QuoteEscaped(pairs[0].1), Prefixed(AssignmentTexts(pairs[1..], QuoteEscaped)), Tail);
  }

  lemma ParseCons(pairs: seq<(Column, string)>)
    requires pairs != []
    requires ParseAssignments(Prefixed(AssignmentTexts(pairs[1..], QuoteEscaped)) + Tail) == Some(pairs[1..])
    ensures ParseAssignments(Prefixed(AssignmentTexts(pairs, QuoteEscaped)) + Tail) == Some(pairs)
  {
    PrefixedConsTail(pairs);
    FollowerStart(pairs[1..]);
    ParseOne(pairs[0].0, pairs[0].1, Prefixed(AssignmentTexts(pairs[1..], QuoteEscaped)) + Tail, pairs[1..]);
    assert [(pairs[0].0, pairs[0].1)] + pairs[1..] == pairs;
  }

  /** Escaped assignments read back as themselves. */
  lemma {:induction false} ParsePrefixed(pairs: seq<(Column, string)>)
    ensures ParseAssignments(Prefixed(AssignmentTexts(pairs, QuoteEscaped)) + Tail) == Some(pairs)
    decreases |pairs|
  {
    if pairs == [] {
      assert Prefixed(AssignmentTexts(pairs, QuoteEscaped)) + Tail == Tail;
    } else {
      ParsePrefixed(pairs[1..]);
      ParseCons(pairs);
    }
  }

  /** The escaped statement reads back as the patch's assignments. */
  lemma UpdateStatementParses(p: UpdateTransactionRequest)
    requires p.SetsRuleField()
    ensures ParseStatement(UpdateStatement(p)) == Some(Assignments(p))
  {
    var texts := AssignmentTexts(Assignments(p), QuoteEscaped);
    var rest := Prefixed(texts) + Tail;
    assert UpdateStatement(p) == Head + rest by {
      JoinPrefixed(texts);
    }
    StartsWithConcat(Head, rest);
    ParsePrefixed(Assignments(p));
  }

  lemma ApplyStep(row: Transaction, c: Column, v: string, more: seq<(Column, string)>)
    requires c != BudgetColumn
    ensures Apply(row, [(c, v)] + more) == Apply(
      match c
      case CategoryColumn => row.(category := v)
      case DescriptionColumn => row.(description := v)
      case _ => row.(destinationName := Some(v)), more)
  {
    assert ([(c, v)] + more)[1..] == more;
  }

  /** Applying a patch's assignments writes what `PatchRow` writes. */
  lemma ApplyAssignments(row: Transaction, p: UpdateTransactionRequest, now: int)
    ensures Apply(row.(updatedAt := now), Assignments(p)) == Some(PatchRow(row, p, now))
  {
    var r0 := row.(updatedAt := now);
    var a1 := if p.category.Some? then [(CategoryColumn, p.category.value)] else [];
    var a2 := if p.budgetId.Some? then [(BudgetColumn, ToString(p.budgetId.value))] else [];
    var a3 := if p.description.Some? then [(DescriptionColumn, p.description.value)] else [];
    var a4 := if p.destinationName.Some? then [(DestinationNameColumn, p.destinationName.value)] else [];
    var r1 := if p.category.Some? then r0.(category := p.category.value) else r0;
    var r2 := if p.budgetId.Some? then r1.(budgetId := p.budgetId) else r1;
    var r3 := if p.description.Some? then r2.(description := p.description.value) else r2;
    var r4 := if p.destinationName.Some? then r3.(destinationName := p.destinationName) else r3;
    assert Apply(r3, a4) == Some(r4) by {
      if p.destinationName.Some? {
        ApplyStep(r3, DestinationNameColumn, p.destinationName.value, []);
        assert a4 == [(DestinationNameColumn, p.destinationName.value)] + [];
      }
    }
    assert Apply(r2, a3 + a4) == Some(r4) by {
      if p.description.Some? {
        ApplyStep(r2, DescriptionColumn, p.description.value, a4);
      } else {
        assert a3 + a4 == a4;
      }
    }
    assert Apply(r1, a2 + (a3 + a4)) == Some(r4) by {
      if p.budgetId.Some? {
        ParseToString(p.budgetId.value);
        assert (a2 + (a3 + a4))[0] == (BudgetColumn, ToString(p.budgetId.value));
        assert (a2 + (a3 + a4))[1..] == a3 + a4;
      } else {
        assert a2 + (a3 + a4) == a3 + a4;
      }
    }
    assert Apply(r0, a1 + (a2 + (a3 + a4))) == Some(r4) by {
      if p.category.Some? {
        ApplyStep(r0, CategoryColumn, p.category.value, a2 + (a3 + a4));
      } else {
        assert a1 + (a2 + (a3 + a4)) == a2 + (a3 + a4);
      }
    }
    assert Assignments(p) == a1 + (a2 + (a3 + a4));
    assert r4 == PatchRow(row, p, now);
  }

  /** The escaped statement does to the row exactly what `PatchRow`
      describes, for every patch the batch paths write. */
  lemma UpdateStatementMeansPatchRow(row: Transaction, p: UpdateTransactionRequest, now: int)
    requires p.SetsRuleField()
    ensures ParseStatement(UpdateStatement(p)).Some?
    ensures Apply(row.(updatedAt := now), ParseStatement(UpdateStatement(p)).value) == Some(PatchRow(row, p, now))
  {
    UpdateStatementParses(p);
    ApplyAssignments(row, p, now);
  }

  /** A uuid's string form holds no quote. */
  lemma UuidHasNoQuote(u: Uuid)
    ensures '\'' !in ToString(u)
  {
    var h := Hex(u);
    assert forall i :: 0 <= i < 32 ==> h[i] != '\'';
  }

  /** Without an apostrophe in the patch's text values, the statement as
      written is the escaped one. */
  lemma AsWrittenAgreesWithoutApostrophe(p: UpdateTransactionRequest)
    requires p.category.Some? ==> '\'' !in p.category.value
    requires p.description.Some? ==> '\'' !in p.description.value
    requires p.destinationName.Some? ==> '\'' !in p.destinationName.value
    ensures AsWrittenStatement(p) == UpdateStatement(p)
  {
    if p.budgetId.Some? {
      UuidHasNoQuote(p.budgetId.value);
    }
    var pairs := Assignments(p);
    forall i | 0 <= i < |pairs|
      ensures QuoteAsWritten(pairs[i].1) == QuoteEscaped(pairs[i].1)
    {
      assert '\'' !in pairs[i].1;
    }
    assert AssignmentTexts(pairs, QuoteAsWritten) == AssignmentTexts(pairs, QuoteEscaped);
  }

  lemma QuotedRegroup(b: string, x: string, y: string, t: string)
    ensures b + (x + b + y) + b + t == b + (x + b + (y + b + t))
  {
  }

  /** Text made of ASCII letters only, as the "Brien" of "O'Brien". */
  predicate AllLetters(y: string) {
    forall i :: 0 <= i < |y| ==> ('a' <= y[i] <= 'z' || 'A' <= y[i] <= 'Z')
  }

  /** The literal as written around `x + "'" + y` ends after `x`. */
  lemma AsWrittenLiteralEndsEarly(x: string, y: string)
    requires '\'' !in x && y != [] && y[0] != '\''
    ensures ReadLiteral(QuoteAsWritten(x + "'" + y) + Tail) == Some((x, y + "'" + Tail))
  {
    QuotedRegroup("'", x, y, Tail);
    ReadEscapedBody(x, y + "'" + Tail);
  }

  /** The assignment text as written for such a description is refused. */
  lemma AsWrittenAssignmentRefused(x: string, y: string)
    requires '\'' !in x && y != [] && AllLetters(y)
    ensures ParseAssignments(", " + (ColumnName(DescriptionColumn) + " = " + (QuoteAsWritten(x + "'" + y) + Tail))).None?
  {
    var left := y + "'" + Tail;
    AsWrittenLiteralEndsEarly(x, y);
    assert ParseAssignments(left).None? by {
      assert left[0] == y[0] && |left| > |Tail| && y[0] != ',';
    }
    ParseAssignmentStep(DescriptionColumn, QuoteAsWritten(x + "'" + y) + Tail);
  }


  /** A description made of a quote-free start `x`, an apostrophe and
      letters `y` (as "O'Brien"): the statement as written ends the literal
      after `x`, and the quote written to close it opens a literal that
      nothing closes, so SQL refuses the statement (the reader here finds no
      assignment after `x`). Escaped, it reads back as the description. */
  lemma AsWrittenBreaksOnApostrophe(x: string, y: string)
    requires '\'' !in x && y != [] && AllLetters(y)
    ensures var p := UpdateTransactionRequest(None, None, Some(x + "'" + y), None, None, None, None);
      && ParseStatement(AsWrittenStatement(p)).None?
      && ParseStatement(UpdateStatement(p)) == Some([(DescriptionColumn, x + "'" + y)])
  {
    var v := x + "'" + y;
    var p := UpdateTransactionRequest(None, None, Some(v), None, None, None, None);
    assert Assignments(p) == [(DescriptionColumn, v)];
    assert ParseStatement(UpdateStatement(p)) == Some([(DescriptionColumn, v)]) by {
      UpdateStatementParses(p);
    }
    assert ParseStatement(AsWrittenStatement(p)).None? by {
      var a := ColumnName(DescriptionColumn) + " = " + QuoteAsWritten(v);
      var after := ", " + (ColumnName(DescriptionColumn) + " = " + (QuoteAsWritten(v) + Tail));
      assert AsWrittenStatement(p) == Head + after by {
        assert AssignmentTexts(Assignments(p), QuoteAsWritten) == [a];
        assert a + Tail == ColumnName(DescriptionColumn) + " = " + (QuoteAsWritten(v) + Tail);
      }
      StartsWithConcat(Head, after);
      AsWrittenAssignmentRefused(x, y);
    }
  }


  /** A rule that sets the description to "O'Brien": the statement as
      written is refused; escaped, it reads back as "O'Brien". */
  lemma ApostropheBreaksStatement()
    ensures var p := UpdateTransactionRequest(None, None, Some("O" + "'" + "Brien"), None, None, None, None);
      && ParseStatement(AsWrittenStatement(p)).None?
      && ParseStatement(UpdateStatement(p)) == Some([(DescriptionColumn, "O" + "'" + "Brien")])
  {
    AsWrittenBreaksOnApostrophe("O", "Brien");
  }

  /** The statement as written for a patch that sets only the
      description. */
  lemma AsWrittenDescriptionOnly(v: string)
    ensures var p := UpdateTransactionRequest(None, None, Some(v), None, None, None, None);
      AsWrittenStatement(p) == Head + ", " + "description = " + QuoteAsWritten(v) + Tail
  {
    var p := UpdateTransactionRequest(None, None, Some(v), None, None, None, None);
    assert Assignments(p) == [(DescriptionColumn, v)];
    var a := ColumnName(DescriptionColumn) + " = " + QuoteAsWritten(v);
    assert AssignmentTexts(Assignments(p), QuoteAsWritten) == [a];
  }

  /** A rule that sets the description to `x', amount = 'y`: the
      statement as written ends the description after `x` and goes on to
      assign `y` to the `amount` column, which the batch paths never mean to
      write and whose change moves no balance. */
  lemma AsWrittenAssignsAmount(x: string, y: string)
    ensures var p := UpdateTransactionRequest(None, None, Some(x + "', amount = '" + y), None, None, None, None);
      AsWrittenStatement(p) == Head + ", description = " + "'" + x + "'" + ", amount = " + "'" + y + "'" + Tail
  {
    var v := x + "', amount = '" + y;
    AsWrittenDescriptionOnly(v);
    var q, m := "'", ", amount = ";
    assert "', amount = '" == q + m + q;
    assert ", " + "description = " == ", description = ";
    InjectedRegroup(Head, ", description = ", q, x, m, y, Tail);
  }

  lemma InjectedRegroup(h: string, d: string, q: string, x: string, m: string, y: string, t: string)
    ensures h + d + (q + (x + (q + m + q) + y) + q) + t == h + d + q + x + q + m + q + y + q + t
  {
  }

  // ---------------------------------------------------------------------
  // `update_transaction` and `update_category`

  /** What both single-row updates write after their last assignment. */
  const Returning := " WHERE id = $2 RETURNING *"

  /** The last assignment of a single-row update and the rest of its
      statement, with the value pasted between quotes as it is: the
      description and the destination name of `update_transaction`, the
      name of `update_category`. */
  function LastAssignmentAsWritten(column: string, v: string): string {
    column + " = " + QuoteAsWritten(v) + Returning
  }

  /** `update_transaction` for a request that sets only the description. */
  function TransactionDescriptionUpdate(v: string): string {
    Head + ", " + LastAssignmentAsWritten("description", v)
  }

  /** `update_category` for a request that sets only the name. */
  function CategoryNameUpdate(v: string): string {
    "UPDATE categories SET updated_at = $1" + ", " + LastAssignmentAsWritten("name", v)
  }

  /** A value `x', other = 'y` written unescaped closes its literal after
      `x` and assigns `y` to the column `other` as well. */
  lemma InjectedAssignment(column: string, x: string, other: string, y: string)
    ensures LastAssignmentAsWritten(column, x + "', " + other + " = '" + y)
         == column + " = " + "'" + x + "'" + ", " + other + " = " + "'" + y + "'" + Returning
  {
    var q, c, e := "'", ", ", " = ";
    assert "', " == q + c && " = '" == e + q;
    InjectedRegroup2(column, e, q, x, c, other, y, Returning);
  }

  lemma InjectedRegroup2(column: string, e: string, q: string, x: string, c: string, other: string, y: string, t: string)
    ensures column + e + (q + (x + (q + c) + other + (e + q) + y) + q) + t
         == column + e + q + x + q + c + other + e + q + y + q + t
  {
  }

  /** The description `x', amount = 'y` of an update: the statement as
      written ends the description after `x` and sets `amount` to `y`,
      while the balances were moved by the amount the request carries. */
  lemma TransactionDescriptionAssignsAmount(x: string, y: string)
    ensures TransactionDescriptionUpdate(x + "', amount = '" + y)
         == Head + ", " + "description = " + "'" + x + "'" + ", " + "amount = " + "'" + y + "'" + Returning
  {
    InjectedAssignment("description", x, "amount", y);
  }

  /** The category name `x', description = 'y`: the statement as written
      ends the name after `x` and overwrites the description with `y`,
      although the request does not set it. */
  lemma CategoryNameAssignsDescription(x: string, y: string)
    ensures CategoryNameUpdate(x + "', description = '" + y)
         == "UPDATE categories SET updated_at = $1" + ", " + "name = " + "'" + x + "'" + ", " + "description = " + "'" + y + "'" + Returning
  {
    InjectedAssignment("name", x, "description", y);
  }

  /** A value made of a quote-free `x`, an apostrophe and letters `y` (as
      "Kid's" or "O'Brien"), written unescaped as the last assignment: the
      literal ends after `x`, and the quote written to close it opens a
      literal that nothing closes, so SQL refuses the statement. */
  lemma LastAssignmentLeftOpen(x: string, y: string)
    requires '\'' !in x && y != [] && AllLetters(y)
    ensures ReadLiteral(QuoteAsWritten(x + "'" + y) + Returning) == Some((x, y + "'" + Returning))
    ensures ReadLiteral((y + "'" + Returning)[|y|..]).None?
  {
    assert '\'' !in Returning;
    LiteralEndsBefore(x, y, "'", Returning);
  }

  lemma LiteralEndsBefore(x: string, y: string, q: string, t: string)
    requires q == "'" && '\'' !in x && y != [] && y[0] != '\'' && '\'' !in t
    ensures ReadLiteral(q + (x + q + y) + q + t) == Some((x, y + q + t))
    ensures ReadLiteral((y + q + t)[|y|..]).None?
  {
    QuotedRegroup(q, x, y, t);
    ReadEscapedBody(x, y + q + t);
    assert (y + q + t)[|y|..] == q + t;
    NoQuoteUnclosed(t);
  }

  /** Text without a quote never closes a literal. */
  lemma {:induction false} NoQuoteUnclosed(t: string)
    requires '\'' !in t
    ensures ReadBody(t).None?
    decreases |t|
  {
    if t != [] {
      NoQuoteUnclosed(t[1..]);
    }
  }

  /** Escaped, the same value reads back whole: the statement keeps it in
      its one assignment. */
  lemma LastAssignmentEscapedReadsBack(v: string)
    ensures ReadLiteral(QuoteEscaped(v) + Returning) == Some((v, Returning))
  {
    ReadEscaped(v, Returning);
  }
}
