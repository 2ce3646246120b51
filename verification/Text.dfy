/** ASCII text helpers shared by the Go side (strings.TrimSpace, strings.ToUpper) and the SQL side
    (btrim, upper, lower). */
module Text {

  datatype Option<+T> = None | Some(value: T) {
    function GetOr(default: T): T {
      match this
      case Some(v) => v
      case None => default
    }
  }

  // The blanks strings.TrimSpace removes, on ASCII input.
  const GO_BLANKS: set<char> := {' ', '\t', '\n', '\U{000B}', '\U{000C}', '\r'}
  // The blank btrim removes.
  const SQL_BLANKS: set<char> := {' '}

  function TrimLeft(s: string, blanks: set<char>): string {
    if s != [] && s[0] in blanks then TrimLeft(s[1..], blanks) else s
  }

  function TrimRight(s: string, blanks: set<char>): string {
    if s != [] && s[|s| - 1] in blanks then TrimRight(s[..|s| - 1], blanks) else s
  }

  function TrimSpace(s: string): string {
    TrimRight(TrimLeft(s, GO_BLANKS), GO_BLANKS)
  }

  function Btrim(s: string): string {
    TrimRight(TrimLeft(s, SQL_BLANKS), SQL_BLANKS)
  }

  predicate NoOuterBlanks(s: string) {
    s == [] || (s[0] !in GO_BLANKS && s[|s| - 1] !in GO_BLANKS)
  }

  lemma {:induction false} TrimLeftSuffix(s: string, blanks: set<char>)
    ensures |TrimLeft(s, blanks)| <= |s|
    ensures TrimLeft(s, blanks) == s[|s| - |TrimLeft(s, blanks)|..]
    ensures TrimLeft(s, blanks) != [] ==> TrimLeft(s, blanks)[0] !in blanks
  {
    if s != [] && s[0] in blanks {
      TrimLeftSuffix(s[1..], blanks);
    }
  }

  lemma {:induction false} TrimRightPrefix(s: string, blanks: set<char>)
    ensures TrimRight(s, blanks) <= s
    ensures TrimRight(s, blanks) != [] ==> TrimRight(s, blanks)[|TrimRight(s, blanks)| - 1] !in blanks
  {
    if s != [] && s[|s| - 1] in blanks {
      TrimRightPrefix(s[..|s| - 1], blanks);
    }
  }

  // Trimming leaves no outer blank, and changes nothing exactly when there was none.
  lemma TrimSpaceFixpoint(s: string)
    ensures NoOuterBlanks(TrimSpace(s))
    ensures TrimSpace(s) == s <==> NoOuterBlanks(s)
    ensures |TrimSpace(s)| < |s| || TrimSpace(s) == s
  {
    var left := TrimLeft(s, GO_BLANKS);
    TrimLeftSuffix(s, GO_BLANKS);
    TrimRightPrefix(left, GO_BLANKS);
  }

  function UpperChar(c: char): char {
    if 'a' <= c <= 'z' then c - 'a' + 'A' else c
  }

  function LowerChar(c: char): char {
    if 'A' <= c <= 'Z' then c - 'A' + 'a' else c
  }

  function Upper(s: string): (r: string)
    ensures |r| == |s|
    ensures forall i :: 0 <= i < |s| ==> r[i] == UpperChar(s[i])
  {
    seq(|s|, i requires 0 <= i < |s| => UpperChar(s[i]))
  }

  function Lower(s: string): (r: string)
    ensures |r| == |s|
    ensures forall i :: 0 <= i < |s| ==> r[i] == LowerChar(s[i])
  {
    seq(|s|, i requires 0 <= i < |s| => LowerChar(s[i]))
  }

  lemma UpperIdempotent(s: string)
    ensures Upper(Upper(s)) == Upper(s)
  {
  }

  lemma CaseUndone(s: string)
    ensures Upper(Lower(s)) == Upper(s) && Lower(Upper(s)) == Lower(s)
  {
  }

  lemma UpperKeepsBlanks(s: string)
    ensures NoOuterBlanks(Upper(s)) <==> NoOuterBlanks(s)
  {
    forall c: char ensures UpperChar(c) in GO_BLANKS <==> c in GO_BLANKS {
    }
  }

  // ---------- What the helpers mean, character by character ----------

  // Tab, line feed, vertical tab, form feed, carriage return and space.
  predicate IsBlank(c: char) {
    c as int in {9, 10, 11, 12, 13, 32}
  }

  // Only blanks go, only at the two ends, and all that are there.
  lemma TrimSpaceIsExact(s: string) returns (before: string, after: string)
    ensures s == before + TrimSpace(s) + after
    ensures (forall c :: c in before ==> IsBlank(c)) && (forall c :: c in after ==> IsBlank(c))
    ensures TrimSpace(s) != "" ==> !IsBlank(TrimSpace(s)[0]) && !IsBlank(TrimSpace(s)[|TrimSpace(s)| - 1])
  {
    BlanksAre();
    before, after := TrimIsExact(s, GO_BLANKS);
    TrimSpaceFixpoint(s);
  }

  lemma BlanksAre()
    ensures forall c: char :: c in GO_BLANKS <==> IsBlank(c)
  {
    assert '\t' as int == 9 && '\n' as int == 10 && '\r' as int == 13 && ' ' as int == 32;
    assert '\U{000B}' as int == 11 && '\U{000C}' as int == 12;
  }

  // btrim takes away spaces and nothing else.
  lemma BtrimIsExact(s: string) returns (before: string, after: string)
    ensures s == before + Btrim(s) + after
    ensures (forall c :: c in before ==> c == ' ') && (forall c :: c in after ==> c == ' ')
    ensures Btrim(s) != "" ==> Btrim(s)[0] != ' ' && Btrim(s)[|Btrim(s)| - 1] != ' '
  {
    before, after := TrimIsExact(s, SQL_BLANKS);
    var left := TrimLeft(s, SQL_BLANKS);
    TrimLeftSuffix(s, SQL_BLANKS);
    TrimRightPrefix(left, SQL_BLANKS);
  }

  lemma TrimIsExact(s: string, blanks: set<char>) returns (before: string, after: string)
    ensures s == before + TrimRight(TrimLeft(s, blanks), blanks) + after
    ensures (forall c :: c in before ==> c in blanks) && (forall c :: c in after ==> c in blanks)
  {
    hide TrimLeft, TrimRight;
    var left := TrimLeft(s, blanks);
    TrimLeftSuffix(s, blanks);
    TrimRightPrefix(left, blanks);
    LeftTrimmed(s, blanks);
    RightTrimmed(left, blanks);
    before, after := s[..|s| - |left|], left[|TrimRight(left, blanks)|..];
    assert left == TrimRight(left, blanks) + after;
    assert s == before + left;
  }

  lemma {:induction false} LeftTrimmed(s: string, blanks: set<char>)
    ensures |TrimLeft(s, blanks)| <= |s|
    ensures forall c :: c in s[..|s| - |TrimLeft(s, blanks)|] ==> c in blanks
  {
    TrimLeftSuffix(s, blanks);
    if s != [] && s[0] in blanks {
      TrimLeftSuffix(s[1..], blanks);
      LeftTrimmed(s[1..], blanks);
      var n := |s| - |TrimLeft(s, blanks)|;
      assert s[..n] == [s[0]] + s[1..][..n - 1];
    }
  }

  lemma {:induction false} RightTrimmed(s: string, blanks: set<char>)
    ensures |TrimRight(s, blanks)| <= |s|
    ensures forall c :: c in s[|TrimRight(s, blanks)|..] ==> c in blanks
  {
    TrimRightPrefix(s, blanks);
    if s != [] && s[|s| - 1] in blanks {
      var front := s[..|s| - 1];
      TrimRightPrefix(front, blanks);
      RightTrimmed(front, blanks);
      var n := |TrimRight(s, blanks)|;
      assert s[n..] == front[n..] + [s[|s| - 1]];
    }
  }

  // The two alphabets map onto each other, letter by letter, and every other character stays.
  lemma CaseMaps()
    ensures Upper("abcdefghijklmnopqrstuvwxyz") == "ABCDEFGHIJKLMNOPQRSTUVWXYZ"
    ensures Lower("ABCDEFGHIJKLMNOPQRSTUVWXYZ") == "abcdefghijklmnopqrstuvwxyz"
    ensures forall c: char :: UpperChar(c) != c ==> c in "abcdefghijklmnopqrstuvwxyz"
    ensures forall c: char :: LowerChar(c) != c ==> c in "ABCDEFGHIJKLMNOPQRSTUVWXYZ"
  {
    var small, big := "abcdefghijklmnopqrstuvwxyz", "ABCDEFGHIJKLMNOPQRSTUVWXYZ";
    assert forall i :: 0 <= i < 26 ==> small[i] as int == 97 + i && big[i] as int == 65 + i;
    forall c: char ensures (UpperChar(c) != c ==> c in small) && (LowerChar(c) != c ==> c in big) {
      if 'a' <= c <= 'z' {
        assert small[c as int - 97] == c;
      } else if 'A' <= c <= 'Z' {
        assert big[c as int - 65] == c;
      }
    }
  }
}
