/** The one-line text form of a move, "x,y", as agents print it and the executor reads it. */
module MoveText {
  import opened Text
  import opened Caro

  function FormatPosition(pos: Position): string {
    FormatInt(pos.X) + "," + FormatInt(pos.Y)
  }

  function ParseMove(raw: string): Option<Position> {
    var parts := Split(raw, ',');
    if |parts| != 2 then None
    else match (Atoi(TrimSpace(parts[0])), Atoi(TrimSpace(parts[1])))
      case (Some(x), Some(y)) => Some(Position(x, y))
      case _ => None
  }

  lemma {:induction false} SplitNowhere(s: string, sep: char)
    ensures |Split(s, sep)| == 1 ==> Split(s, sep) == [s] && sep !in s
  {
    if s != "" {
      SplitNowhere(s[1..], sep);
      assert s == [s[0]] + s[1..];
    }
  }

  lemma {:induction false} SplitAtOnlyComma(s: string, sep: char)
    requires |Split(s, sep)| == 2
    ensures var parts := Split(s, sep);
            s == parts[0] + [sep] + parts[1] && sep !in parts[0] && sep !in parts[1]
  {
    var rest := Split(s[1..], sep);
    if s[0] == sep {
      SplitNowhere(s[1..], sep);
      assert s == "" + [sep] + s[1..];
    } else {
      SplitAtOnlyComma(s[1..], sep);
      assert s == [s[0]] + rest[0] + [sep] + rest[1];
    }
  }

  /** A numeral with blanks around it. */
  datatype Padded = Padded(left: string, core: string, right: string) {
    function Text(): string {
      left + core + right
    }

    predicate Reads(n: int) {
      Blank(left) && Blank(right) && IsNumeral(core) && NumeralValue(core) == n && IsInt64(n)
    }
  }

  /** The accepted lines: two numerals that fit an int64, each possibly padded with blanks, around one comma. */
  ghost predicate Denotes(raw: string, pos: Position) {
    exists p: Padded, q: Padded :: p.Reads(pos.X) && q.Reads(pos.Y) && raw == p.Text() + "," + q.Text()
  }

  /** A padded numeral holds no comma, and trimming it leaves the numeral. */
  lemma PaddedIsTrimmed(p: Padded, n: int)
    requires p.Reads(n)
    ensures ',' !in p.Text() && TrimSpace(p.Text()) == p.core && Atoi(p.core) == Some(n)
  {
    AllSpaceIsBlank(p.left);
    AllSpaceIsBlank(p.right);
    NumeralIsDense(p.core);
    TrimSpacePadded(p.left, p.core, p.right);
    AtoiMeaning(p.core, n);
  }

  lemma NumeralIsDense(s: string)
    requires IsNumeral(s)
    ensures forall i :: 0 <= i < |s| ==> IsDigit(s[i]) || s[i] in {'+', '-'}
    ensures ',' !in s && !IsSpace(s[0]) && !IsSpace(s[|s| - 1])
  {
    forall i | 0 <= i < |s| ensures IsDigit(s[i]) || s[i] in {'+', '-'} {
      if s[0] in {'+', '-'} && i > 0 {
        assert s[i] == s[1..][i - 1];
      }
    }
  }

  /** Trimming what reads as a number leaves a numeral with blanks around it. */
  lemma TrimmedIsPadded(s: string, n: int) returns (p: Padded)
    requires Atoi(TrimSpace(s)) == Some(n)
    ensures p.Text() == s && p.Reads(n)
  {
    var left, right := TrimSpaceSplits(s);
    AtoiMeaning(TrimSpace(s), n);
    p := Padded(left, TrimSpace(s), right);
  }

  lemma ParseMoveMeaning(raw: string, pos: Position)
    ensures ParseMove(raw) == Some(pos) <==> Denotes(raw, pos)
  {
    if Denotes(raw, pos) {
      var p: Padded, q: Padded :| p.Reads(pos.X) && q.Reads(pos.Y) && raw == p.Text() + "," + q.Text();
      PaddedIsTrimmed(p, pos.X);
      PaddedIsTrimmed(q, pos.Y);
      SplitPair(p.Text(), q.Text(), ',');
    }
    if ParseMove(raw) == Some(pos) {
      SplitAtOnlyComma(raw, ',');
      var parts := Split(raw, ',');
      var p := TrimmedIsPadded(parts[0], pos.X);
      var q := TrimmedIsPadded(parts[1], pos.Y);
      assert raw == p.Text() + "," + q.Text();
    }
  }

  lemma TrimPrinted(left: string, n: int, right: string)
    requires Blank(left) && Blank(right)
    ensures TrimSpace(left + FormatInt(n) + right) == FormatInt(n)
    ensures ',' !in left + FormatInt(n) + right
  {
    AllSpaceIsBlank(left);
    AllSpaceIsBlank(right);
    FormatIntIsNumeral(n);
    TrimSpacePadded(left, FormatInt(n), right);
  }

  /** A printed move, with any blanks around its numbers, reads back as itself; outside int64 it is refused. */
  lemma ParsePrinted(x: int, y: int, pads: seq<string>)
    requires |pads| == 4 && forall i :: 0 <= i < 4 ==> Blank(pads[i])
    ensures ParseMove(pads[0] + FormatInt(x) + pads[1] + "," + (pads[2] + FormatInt(y) + pads[3])) ==
            if IsInt64(x) && IsInt64(y) then Some(Position(x, y)) else None
  {
    TrimPrinted(pads[0], x, pads[1]);
    TrimPrinted(pads[2], y, pads[3]);
    SplitPair(pads[0] + FormatInt(x) + pads[1], pads[2] + FormatInt(y) + pads[3], ',');
    AtoiFormatInt(x);
    AtoiFormatInt(y);
  }

  lemma ParseFormatPosition(pos: Position)
    requires IsInt64(pos.X) && IsInt64(pos.Y)
    ensures ParseMove(FormatPosition(pos)) == Some(pos)
  {
    hide ParseMove, FormatInt;
    ParsePrinted(pos.X, pos.Y, ["", "", "", ""]);
    assert "" + FormatInt(pos.X) + "" + "," + ("" + FormatInt(pos.Y) + "") == FormatPosition(pos);
  }
}
