/** Letter case, and booleans as Postgres reads them from text. */
module Texts {
  import opened Wrappers

  function LowerChar(c: char): char {
    if 'A' <= c <= 'Z' then (c as int + 32) as char else c
  }

  function Lower(s: string): string {
    seq(|s|, i requires 0 <= i < |s| => LowerChar(s[i]))
  }

  const BLANKS := {' ', '\t', '\n', '\r', '\U{000B}', '\U{000C}'}

  function Trim(s: string): string {
    if s == [] then s
    else if s[0] in BLANKS then Trim(s[1..])
    else if s[|s| - 1] in BLANKS then Trim(s[..|s| - 1])
    else s
  }

  /** Any unique prefix of a boolean word is accepted; `None` is a cast error. */
  function TextToBool(s: string): Option<bool> {
    var t := Lower(Trim(s));
    if t == "" then None
    else if t <= "true" || t <= "yes" || t == "on" || t == "1" then Some(true)
    else if t <= "false" || t <= "no" || (|t| >= 2 && t <= "off") || t == "0" then Some(false)
    else None
  }

  /** Only blanks are trimmed, and none is left at either end. */
  lemma {:induction false} TrimIsExact(s: string) returns (i: nat, j: nat)
    ensures i <= j <= |s| && Trim(s) == s[i..j]
    ensures forall m | (0 <= m < i || j <= m < |s|) :: s[m] in {' ', '\t', '\n', '\r', '\U{000B}', '\U{000C}'}
    ensures i < j ==> s[i] !in BLANKS && s[j - 1] !in BLANKS
    decreases |s|
  {
    if s == [] {
      i, j := 0, 0;
    } else if s[0] in BLANKS {
      i, j := TrimIsExact(s[1..]);
      assert forall m | 1 <= m < |s| :: s[m] == s[1..][m - 1];
      i, j := i + 1, j + 1;
    } else if s[|s| - 1] in BLANKS {
      i, j := TrimIsExact(s[..|s| - 1]);
      assert s[..|s| - 1][i..j] == s[i..j];
    } else {
      i, j := 0, |s|;
    }
  }

  /** The words Postgres takes for a boolean, blanks and letter case aside. */
  lemma BooleanWords(s: string)
    ensures var t := Lower(Trim(s));
            && (TextToBool(s) == Some(true) <==> t in {"t", "tr", "tru", "true", "y", "ye", "yes", "on", "1"})
            && (TextToBool(s) == Some(false) <==> t in {"f", "fa", "fal", "fals", "false", "n", "no", "of", "off", "0"})
  {
    var t := Lower(Trim(s));
    assert "true"[..0] == "" && "true"[..1] == "t" && "true"[..2] == "tr" && "true"[..3] == "tru" && "true"[..4] == "true";
    assert "yes"[..0] == "" && "yes"[..1] == "y" && "yes"[..2] == "ye" && "yes"[..3] == "yes";
    assert "false"[..0] == "" && "false"[..1] == "f" && "false"[..2] == "fa" && "false"[..3] == "fal" && "false"[..4] == "fals" && "false"[..5] == "false";
    assert "no"[..0] == "" && "no"[..1] == "n" && "no"[..2] == "no";
    assert "off"[..0] == "" && "off"[..1] == "o" && "off"[..2] == "of" && "off"[..3] == "off";
    if t <= "true" { assert t == "true"[..|t|]; }
    if t <= "yes" { assert t == "yes"[..|t|]; }
    if t <= "false" { assert t == "false"[..|t|]; }
    if t <= "no" { assert t == "no"[..|t|]; }
    if t <= "off" { assert t == "off"[..|t|]; }
  }
}
