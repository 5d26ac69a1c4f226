/** Column-name standardisation in load_data: str.strip(), then every space
    replaced by '_', then every hyphen replaced by '_'. */
module ColumnNames {

  /** The characters Python's str.strip() removes when called without arguments. */
  predicate IsSpace(c: char) {
    || c == ' '
    || '\t' <= c <= '\r'
    || '\U{1c}' <= c <= '\U{1f}'
    || c == '\U{85}' || c == '\U{a0}' || c == '\U{1680}'
    || '\U{2000}' <= c <= '\U{200a}'
    || c == '\U{2028}' || c == '\U{2029}' || c == '\U{202f}' || c == '\U{205f}' || c == '\U{3000}'
  }

  /** Drops leading whitespace: the result is the suffix of s left after a
      run of whitespace, and does not itself start with whitespace. */
  function TrimStart(s: string): (r: string)
    ensures |r| <= |s| && r == s[|s| - |r|..]
    ensures forall i | 0 <= i < |s| - |r| :: IsSpace(s[i])
    ensures r == [] || !IsSpace(r[0])
  {
    if s != [] && IsSpace(s[0]) then TrimStart(s[1..]) else s
  }

  /** Drops trailing whitespace: the result is the prefix of s before a run
      of whitespace, and does not itself end with whitespace. */
  function TrimEnd(s: string): (r: string)
    ensures |r| <= |s| && r == s[..|r|]
    ensures forall i | |r| <= i < |s| :: IsSpace(s[i])
    ensures r == [] || !IsSpace(r[|r| - 1])
  {
    if s != [] && IsSpace(s[|s| - 1]) then TrimEnd(s[..|s| - 1]) else s
  }

  /** str.strip() */
  function Strip(s: string): string {
    TrimEnd(TrimStart(s))
  }

  /** str.replace(from, to, regex=False) for one-character patterns. */
  function ReplaceChar(s: string, from: char, to: char): string {
    seq(|s|, i requires 0 <= i < |s| => if s[i] == from then to else s[i])
  }

  /** The name a column gets in load_data. */
  function Normalize(s: string): string {
    ReplaceChar(ReplaceChar(Strip(s), ' ', '_'), '-', '_')
  }

  /** A standardised name: no space, no hyphen, no surrounding whitespace. */
  predicate IsNormalized(s: string) {
    && ' ' !in s
    && '-' !in s
    && (s == [] || (!IsSpace(s[0]) && !IsSpace(s[|s| - 1])))
  }

  lemma ReplaceAbsent(s: string, from: char, to: char)
    requires from !in s
    ensures ReplaceChar(s, from, to) == s
  {
  }

  lemma StripFixesTrimmed(s: string)
    requires s == [] || (!IsSpace(s[0]) && !IsSpace(s[|s| - 1]))
    ensures Strip(s) == s
  {
  }

  lemma {:induction false} StripIsTrimmed(s: string)
    ensures var r := Strip(s); r == [] || (!IsSpace(r[0]) && !IsSpace(r[|r| - 1]))
  {
    var t := TrimStart(s);
    var r := TrimEnd(t);
    if r != [] {
      assert r[0] == t[0];
    }
  }

  /** After standardisation a name holds no space or hyphen and has no
      leading or trailing whitespace. */
  lemma NormalizeIsNormalized(s: string)
    ensures IsNormalized(Normalize(s))
  {
    StripIsTrimmed(s);
    var t := Strip(s);
    var u := ReplaceChar(t, ' ', '_');
    var r := ReplaceChar(u, '-', '_');
    assert forall i | 0 <= i < |r| :: r[i] != ' ' && r[i] != '-';
    if r != [] {
      assert r[0] == '_' || r[0] == t[0];
      assert r[|r| - 1] == '_' || r[|r| - 1] == t[|t| - 1];
    }
  }

  /** Standardisation leaves a standardised name alone, and only those. */
  lemma NormalizeFixedPoints(s: string)
    ensures Normalize(s) == s <==> IsNormalized(s)
  {
    NormalizeIsNormalized(s);
    if IsNormalized(s) {
      StripFixesTrimmed(s);
      ReplaceAbsent(s, ' ', '_');
      ReplaceAbsent(s, '-', '_');
    }
  }

  /** Standardising twice gives the same names as standardising once. */
  lemma NormalizeIdempotent(s: string)
    ensures Normalize(Normalize(s)) == Normalize(s)
  {
    NormalizeIsNormalized(s);
    NormalizeFixedPoints(Normalize(s));
  }
}
