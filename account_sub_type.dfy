// AccountSubType (src/db/account_sub_type_migration.rs): `parse_account_type`,
// which splits a stored account type such as "On Budget - Credit Card" into
// its main type and an optional subtype.

module AccountSubType {
  import opened Base
  import opened Text

  const Separator := " - "

  /** The pieces trimmed, with the empty ones dropped, in order. */
  function NonEmptyTrimmed(parts: seq<string>): (r: seq<string>)
    ensures |r| <= |parts|
    ensures forall i :: 0 <= i < |r| ==> r[i] != [] && IsTrimmed(r[i])
  {
    if parts == [] then []
    else
      var t := Trim(parts[0]);
      var rest := NonEmptyTrimmed(parts[1..]);
      if t == [] then rest else [t] + rest
  }

  /** `parse_account_type`: "" gives ("", None); input that trims to
      "External" gives ("External", None); with two or more non-empty
      trimmed pieces around " - ", the first two; otherwise the trimmed
      input and no subtype. */
  function ParseAccountType(full: string): (r: (string, Option<string>))
    ensures IsTrimmed(r.0)
    ensures r.1.Some? ==> r.1.value != [] && IsTrimmed(r.1.value)
    ensures r.1.Some? ==> Contains(Trim(full), Separator)
  {
    if full == [] then ("", None)
    else
      var trimmed := Trim(full);
      if trimmed == "External" then ("External", None)
      else
        var pieces := Split(trimmed, Separator);
        var parts := NonEmptyTrimmed(pieces);
        if |parts| > 1 then
          assert |pieces| > 1;
          (parts[0], Some(parts[1]))
        else (trimmed, None)
  }

  /** Every occurrence of " - " puts a hyphen in the text. */
  lemma SeparatorHyphen(s: string, i: nat)
    requires i + |Separator| <= |s| && StartsWith(s[i..], Separator)
    ensures s[i + 1] == '-'
  {
    assert s[i..][..3][1] == s[i + 1];
  }

  /** Text without a hyphen contains no " - ". */
  lemma NoHyphenNoSeparator(s: string)
    requires '-' !in s
    ensures FindFirst(s, Separator).None?
  {
    match FindFirst(s, Separator)
    case None =>
    case Some(i) =>
      SeparatorHyphen(s, i);
      assert false;
  }

  /** In `a + " - " + rest` with no hyphen in `a`, the first separator is
      the one right after `a`. */
  lemma FirstSeparatorAfter(a: string, rest: string)
    requires '-' !in a
    ensures FindFirst(a + Separator + rest, Separator) == Some(|a|)
  {
    var s := a + Separator + rest;
    assert s[|a|..][..3] == Separator;
    var i := FindFirst(s, Separator).value;
    if i < |a| {
      SeparatorHyphen(s, i);
      assert false;
    }
  }

  /** The special value "External" has no hyphen in it. */
  lemma HyphenNotExternal(s: string, i: nat)
    requires i < |s| && s[i] == '-'
    ensures s != "External"
  {
    if |s| == 8 {
      assert "External"[i] != '-';
    }
  }

  /** Splitting a " - "-joined list of hyphen-free pieces gives the pieces
      back. */
  lemma {:induction false} SplitJoin(ps: seq<string>)
    requires |ps| >= 1 && forall i :: 0 <= i < |ps| ==> '-' !in ps[i]
    ensures Split(Join(ps, Separator), Separator) == ps
    decreases |ps|
  {
    if |ps| == 1 {
      NoHyphenNoSeparator(ps[0]);
    } else {
      var tail := Join(ps[1..], Separator);
      var s := ps[0] + Separator + tail;
      assert Join(ps, Separator) == s;
      FirstSeparatorAfter(ps[0], tail);
      assert s[..|ps[0]|] == ps[0];
      assert s[|ps[0]| + |Separator|..] == tail;
      SplitJoin(ps[1..]);
      assert ps == [ps[0]] + ps[1..];
    }
  }

  lemma {:induction false} NonEmptyTrimmedKeeps(ps: seq<string>)
    requires forall i :: 0 <= i < |ps| ==> ps[i] != [] && IsTrimmed(ps[i])
    ensures NonEmptyTrimmed(ps) == ps
    decreases |ps|
  {
    if ps != [] {
      TrimOfTrimmed(ps[0]);
      NonEmptyTrimmedKeeps(ps[1..]);
      assert ps == [ps[0]] + ps[1..];
    }
  }

  /** A join of non-empty trimmed pieces is trimmed, and starts with the
      first piece. */
  lemma {:induction false} JoinTrimmed(ps: seq<string>)
    requires |ps| >= 1 && forall i :: 0 <= i < |ps| ==> ps[i] != [] && IsTrimmed(ps[i])
    ensures IsTrimmed(Join(ps, Separator)) && Join(ps, Separator) != []
    ensures Join(ps, Separator)[0] == ps[0][0]
    decreases |ps|
  {
    if |ps| > 1 {
      JoinTrimmed(ps[1..]);
    }
  }

  /** "Type - Subtype - more" parses to (Type, Some(Subtype)): later pieces
      are dropped. */
  lemma ParsesTypeAndSubtype(ps: seq<string>)
    requires |ps| >= 2
    requires forall i :: 0 <= i < |ps| ==> ps[i] != [] && IsTrimmed(ps[i]) && '-' !in ps[i]
    ensures ParseAccountType(Join(ps, Separator)) == (ps[0], Some(ps[1]))
  {
    var s := Join(ps, Separator);
    JoinTrimmed(ps);
    TrimOfTrimmed(s);
    assert s == ps[0] + Separator + Join(ps[1..], Separator);
    assert s[|ps[0]| + 1] == '-';
    HyphenNotExternal(s, |ps[0]| + 1);
    SplitJoin(ps);
    NonEmptyTrimmedKeeps(ps);
    var parts := NonEmptyTrimmed(Split(Trim(s), Separator));
    assert parts == ps;
  }

  /** Input without a hyphen has no subtype: it parses to its trimmed self. */
  lemma NoSeparatorNoSubtype(full: string)
    requires full != [] && '-' !in Trim(full)
    ensures ParseAccountType(full) == (Trim(full), None)
  {
    var trimmed := Trim(full);
    if trimmed != "External" {
      NoHyphenNoSeparator(trimmed);
      assert Split(trimmed, Separator) == [trimmed];
    }
  }

  /** The two early returns: the empty string, and anything that trims to
      "External". */
  lemma SpecialCases(full: string)
    ensures ParseAccountType("") == ("", None)
    ensures full != [] && Trim(full) == "External" ==> ParseAccountType(full) == ("External", None)
  {
  }

  lemma JoinWithBlank(a: string, b: string)
    ensures Join([a, "", b], Separator) == a + Separator + (Separator + b)
  {
    var ps := [a, "", b];
    assert ps[1..] == ["", b] && ps[1..][1..] == [b];
    assert Join(ps[1..], Separator) == "" + Separator + b;
  }

  /** A blank first piece is dropped. */
  lemma NonEmptyTrimmedDropsBlank(rest: seq<string>)
    ensures NonEmptyTrimmed([[]] + rest) == NonEmptyTrimmed(rest)
  {
    assert ([[]] + rest)[1..] == rest;
  }

  /** A non-empty trimmed first piece is kept as it is. */
  lemma NonEmptyTrimmedKeepsHead(p: string, rest: seq<string>)
    requires p != [] && IsTrimmed(p)
    ensures NonEmptyTrimmed([p] + rest) == [p] + NonEmptyTrimmed(rest)
  {
    TrimOfTrimmed(p);
    assert ([p] + rest)[1..] == rest;
  }

  lemma NonEmptyTrimmedSkipsBlank(a: string, b: string)
    requires a != [] && IsTrimmed(a) && b != [] && IsTrimmed(b)
    ensures NonEmptyTrimmed([a, "", b]) == [a, b]
  {
    var blank: string := [];
    var tail := [blank] + [b];
    assert tail == [blank, b];
    assert [a] + tail == [a, blank, b];
    NonEmptyTrimmedKeepsHead(a, tail);
    NonEmptyTrimmedDropsBlank([b]);
    NonEmptyTrimmedKeepsHead(b, []);
    assert [b] + [] == [b];
  }



  /** A blank piece is skipped: "Type -  - Sub" still finds Sub. */
  lemma BlankPieceSkipped(a: string, b: string)
    requires a != [] && IsTrimmed(a) && '-' !in a
    requires b != [] && IsTrimmed(b) && '-' !in b
    ensures ParseAccountType(Join([a, "", b], Separator)) == (a, Some(b))
  {
    var ps := [a, "", b];
    var s := Join(ps, Separator);
    assert Trim(s) == s && s != [] && s != "External" by {
      JoinWithBlank(a, b);
      assert s[0] == a[0] && s[|s| - 1] == b[|b| - 1];
      TrimOfTrimmed(s);
      assert s[|a| + 1] == '-';
      HyphenNotExternal(s, |a| + 1);
    }
    assert Split(s, Separator) == ps by {
      SplitJoin(ps);
    }
    NonEmptyTrimmedSkipsBlank(a, b);
  }

}
