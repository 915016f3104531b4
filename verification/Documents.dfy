// What a stored row must equal: the cell normalisation and the two hashes of
// src/ingestion/documents.py, with SHA-256 as a free (injective) constructor.
module Documents {
  datatype Cell = Null | Flag(b: bool) | Whole(n: int) | Fraction(r: real) | Text(s: string)

  const MAX_CHARS: nat := 1000

  // What str.strip removes: Unicode white space and the ASCII separators.
  predicate IsSpace(c: char) {
    var n := c as int;
    9 <= n <= 13 || 28 <= n <= 32 || n == 0x85 || n == 0xA0 || n == 0x1680 || 0x2000 <= n <= 0x200A
    || n == 0x2028 || n == 0x2029 || n == 0x202F || n == 0x205F || n == 0x3000
  }

  function StripRight(s: string): string {
    if s != "" && IsSpace(s[|s| - 1]) then StripRight(s[..|s| - 1]) else s
  }

  function StripLeft(s: string): string {
    if s != "" && IsSpace(s[0]) then StripLeft(s[1..]) else s
  }

  function Strip(s: string): string { StripRight(StripLeft(s)) }

  function MetadataValue(c: Cell): Cell {
    if !c.Text? then c
    else
      var text := Strip(c.s);
      if text == "" then Null
      else if |text| > MAX_CHARS then Text(text[..MAX_CHARS])
      else Text(text)
  }

  type Fields = map<string, Cell>

  // metadata_hash normalises every cell again before hashing.
  function Canonical(fields: Fields): Fields { map k | k in fields :: MetadataValue(fields[k]) }

  datatype Hash = OfContent(text: string) | OfFields(canonical: Fields)

  function ContentHash(document: string): Hash { OfContent(document) }

  function MetadataHash(fields: Fields): Hash { OfFields(Canonical(fields)) }

  predicate Stable(fields: Fields) { forall k :: k in fields ==> MetadataValue(fields[k]) == fields[k] }

  lemma StableHashIsExact(x: Fields, y: Fields)
    requires Stable(x) && Stable(y)
    ensures MetadataHash(x) == MetadataHash(y) <==> x == y
  {
    assert Canonical(x) == x && Canonical(y) == y;
  }

  predicate Trimmed(s: string) { s != "" ==> !IsSpace(s[0]) && !IsSpace(s[|s| - 1]) }

  lemma {:induction false} StripRightProperties(s: string)
    ensures StripRight(s) <= s
    ensures StripRight(s) != "" ==> !IsSpace(StripRight(s)[|StripRight(s)| - 1])
  {
    if s != "" && IsSpace(s[|s| - 1]) { StripRightProperties(s[..|s| - 1]); }
  }

  lemma {:induction false} StripLeftProperties(s: string)
    ensures StripLeft(s) != "" ==> !IsSpace(StripLeft(s)[0])
    ensures |StripLeft(s)| <= |s|
  {
    if s != "" && IsSpace(s[0]) { StripLeftProperties(s[1..]); }
  }

  lemma StripProperties(s: string)
    ensures Trimmed(Strip(s)) && |Strip(s)| <= |s|
    ensures Trimmed(s) ==> Strip(s) == s
  {
    StripLeftProperties(s);
    StripRightProperties(StripLeft(s));
    var t := StripLeft(s);
    if StripRight(t) != "" { assert StripRight(t)[0] == t[0]; }
  }

  // The text between the first and the last character that is no space.
  lemma StripIs(s: string)
    ensures exists i, j :: 0 <= i <= j <= |s| && Strip(s) == s[i..j]
              && (forall k :: 0 <= k < i || j <= k < |s| ==> IsSpace(s[k]))
  {
    var i := StripLeftIs(s);
    var j := StripRightIs(s[i..]);
    assert s[i..][..j] == s[i..i + j];
    forall k | i + j <= k < |s| ensures IsSpace(s[k]) { assert s[i..][k - i] == s[k]; }
  }

  lemma {:induction false} StripLeftIs(s: string) returns (i: nat)
    ensures i <= |s| && StripLeft(s) == s[i..] && forall k :: 0 <= k < i ==> IsSpace(s[k])
  {
    if s != "" && IsSpace(s[0]) {
      i := StripLeftIs(s[1..]);
      forall k | 0 <= k < i + 1 ensures IsSpace(s[k]) { if k > 0 { assert s[1..][k - 1] == s[k]; } }
      assert s[1..][i..] == s[i + 1..];
      i := i + 1;
    } else {
      i := 0;
    }
  }

  lemma {:induction false} StripRightIs(s: string) returns (j: nat)
    ensures j <= |s| && StripRight(s) == s[..j] && forall k :: j <= k < |s| ==> IsSpace(s[k])
  {
    if s != "" && IsSpace(s[|s| - 1]) {
      j := StripRightIs(s[..|s| - 1]);
    } else {
      j := |s|;
    }
  }

  // What a cell becomes: a blank text is no value, any other is trimmed and cut to 1000 characters, and
  // everything else stays.
  lemma CellIs(c: Cell)
    ensures !c.Text? ==> MetadataValue(c) == c
    ensures c.Text? ==> (MetadataValue(c) == Null <==> forall k :: 0 <= k < |c.s| ==> IsSpace(c.s[k]))
    ensures c.Text? && MetadataValue(c) != Null ==>
              MetadataValue(c) == Text(if |Strip(c.s)| <= 1000 then Strip(c.s) else Strip(c.s)[..1000])
  {
    if c.Text? {
      StripIs(c.s);
      StripProperties(c.s);
      var i, j :| 0 <= i <= j <= |c.s| && Strip(c.s) == c.s[i..j] && (forall k :: 0 <= k < i || j <= k < |c.s| ==> IsSpace(c.s[k]));
      if i < j { assert Strip(c.s)[0] == c.s[i]; }
    }
  }

  // Normalising a cell twice changes it exactly when the cut at 1000 characters falls just after
  // a space; two such cells can then share one metadata hash.
  lemma StableIff(c: Cell)
    ensures MetadataValue(MetadataValue(c)) == MetadataValue(c)
       <==> !(c.Text? && |Strip(c.s)| > MAX_CHARS && IsSpace(Strip(c.s)[MAX_CHARS - 1]))
  {
    if c.Text? && Strip(c.s) != "" {
      var text := Strip(c.s);
      StripProperties(c.s);
      StripProperties(text);
      if |text| > MAX_CHARS {
        var cut := text[..MAX_CHARS];
        StripProperties(cut);
        if !IsSpace(text[MAX_CHARS - 1]) {
          assert Trimmed(cut);
        } else {
          assert IsSpace(cut[|cut| - 1]) && !Trimmed(cut);
          assert Strip(cut) != cut;
        }
      }
    }
  }

  // A source change the hash cannot see: a long cell cut just after a space, then shortened to
  // the same text without that space.
  lemma HashMissesAChange(key: string, long: string)
    requires Trimmed(long) && |long| > MAX_CHARS && IsSpace(long[MAX_CHARS - 1])
    ensures var before := map[key := MetadataValue(Text(long))];
            var after := map[key := MetadataValue(MetadataValue(Text(long)))];
            before != after && MetadataHash(before) == MetadataHash(after)
  {
    StripProperties(long);
    StableIff(Text(long));
    var once := MetadataValue(Text(long));
    assert once == Text(long[..MAX_CHARS]);
    StripProperties(once.s);
    StableIff(once);
    var twice := MetadataValue(once);
    var before, after := map[key := once], map[key := twice];
    assert Canonical(before)[key] == twice && Canonical(after)[key] == twice;
    assert Canonical(before) == Canonical(after);
    assert before[key] != after[key];
  }
}
