/** Strings as Python's `str.strip` and the platform's identifier patterns see them. */
module Text {
  /** The characters stripped from both ends of a string. */
  predicate Space(c: char) {
    var n := c as int;
    || 0x09 <= n <= 0x0d || 0x1c <= n <= 0x20 || n == 0x85 || n == 0xa0 || n == 0x1680 || 0x2000 <= n <= 0x200a
    || n == 0x2028 || n == 0x2029 || n == 0x202f || n == 0x205f || n == 0x3000
  }

  predicate Stripped(s: string) {
    s == "" || (!Space(s[0]) && !Space(s[|s| - 1]))
  }

  function Strip(s: string): (r: string)
    ensures Stripped(r) && |r| <= |s|
  {
    if s == "" then s
    else if Space(s[0]) then Strip(s[1..])
    else if Space(s[|s| - 1]) then Strip(s[..|s| - 1])
    else s
  }

  /** The code points stripped, one by one. */
  lemma SpaceMeaning(c: char)
    ensures Space(c) <==>
              c as int in {9, 10, 11, 12, 13, 28, 29, 30, 31, 32, 133, 160, 5760, 8192, 8193, 8194, 8195, 8196, 8197, 8198,
                           8199, 8200, 8201, 8202, 8232, 8233, 8239, 8287, 12288}
  {
  }

  predicate AllSpace(s: string) {
    forall i :: 0 <= i < |s| ==> Space(s[i])
  }

  /** Stripping takes space off both ends and nothing else. */
  lemma {:induction false} StripMeaning(s: string) returns (before: string, after: string)
    ensures s == before + Strip(s) + after && AllSpace(before) && AllSpace(after) && Stripped(Strip(s))
    decreases |s|
  {
    if s != "" && Space(s[0]) {
      before, after := StripMeaning(s[1..]);
      assert s == [s[0]] + s[1..];
      before := [s[0]] + before;
    } else if s != "" && Space(s[|s| - 1]) {
      before, after := StripMeaning(s[..|s| - 1]);
      assert s == s[..|s| - 1] + [s[|s| - 1]];
      after := after + [s[|s| - 1]];
    } else {
      before, after := "", "";
      assert s == "" + s + "";
    }
  }

  lemma {:induction false} StripBack(s: string, c: char)
    requires Space(c)
    ensures Strip(s + [c]) == Strip(s)
    decreases |s|
  {
    var longer := s + [c];
    assert longer[..|s|] == s;
    if s == "" {
      assert longer[1..] == "";
    } else if Space(s[0]) {
      assert longer[1..] == s[1..] + [c];
      StripBack(s[1..], c);
    }
  }

  /** Space around a string makes no difference once it is stripped. */
  lemma {:induction false} StripAround(before: string, s: string, after: string)
    requires AllSpace(before) && AllSpace(after)
    ensures Strip(before + s + after) == Strip(s)
    decreases |before| + |after|
  {
    var all := before + s + after;
    if after != "" {
      var n := |after| - 1;
      assert all == before + s + after[..n] + [after[n]];
      StripBack(before + s + after[..n], after[n]);
      StripAround(before, s, after[..n]);
    } else if before != "" {
      assert all[1..] == before[1..] + s + after;
      StripAround(before[1..], s, after);
    } else {
      assert all == s;
    }
  }

  lemma StripTwice(s: string)
    ensures Strip(Strip(s)) == Strip(s)
  {
  }

  // ---------- Identifiers ----------

  predicate Alphanumeric(c: char) {
    'A' <= c <= 'Z' || 'a' <= c <= 'z' || '0' <= c <= '9'
  }

  predicate ValidToken(s: string, extra: string) {
    1 <= |s| <= 128 && Alphanumeric(s[0]) && forall i :: 1 <= i < |s| ==> Alphanumeric(s[i]) || s[i] in extra
  }

  /** A merchant reference, as the gateway and the merchant both check it. */
  predicate ValidReference(s: string) {
    ValidToken(s, "._:/-")
  }

  const LETTERS_AND_DIGITS := "ABCDEFGHIJKLMNOPQRSTUVWXYZ" + "abcdefghijklmnopqrstuvwxyz" + "0123456789"

  lemma LettersAndDigits(c: char)
    ensures Alphanumeric(c) <==> c in LETTERS_AND_DIGITS
  {
    var upper, lower, digits := "ABCDEFGHIJKLMNOPQRSTUVWXYZ", "abcdefghijklmnopqrstuvwxyz", "0123456789";
    InRun(upper, 'A', c);
    InRun(lower, 'a', c);
    InRun(digits, '0', c);
    assert c in LETTERS_AND_DIGITS <==> c in upper || c in lower || c in digits;
  }

  lemma InRun(s: string, first: char, c: char)
    requires forall i :: 0 <= i < |s| ==> s[i] as int == first as int + i
    ensures c in s <==> first as int <= c as int < first as int + |s|
  {
    if first as int <= c as int < first as int + |s| {
      assert s[c as int - first as int] == c;
    }
  }

  lemma TokenOf(s: string, extra: string, letters: string)
    requires forall i :: 0 <= i < |s| ==> (Alphanumeric(s[i]) <==> s[i] in letters)
    ensures ValidToken(s, extra) <==>
              && 1 <= |s| <= 128 && s[0] in letters && forall i :: 0 <= i < |s| ==> s[i] in letters || s[i] in extra
  {
  }

  lemma AllLettersAndDigits(s: string)
    ensures forall i :: 0 <= i < |s| ==> (Alphanumeric(s[i]) <==> s[i] in LETTERS_AND_DIGITS)
  {
    forall i | 0 <= i < |s|
      ensures Alphanumeric(s[i]) <==> s[i] in LETTERS_AND_DIGITS
    {
      LettersAndDigits(s[i]);
    }
  }

  lemma TokenMeaning(s: string, extra: string)
    ensures ValidToken(s, extra) <==>
              && 1 <= |s| <= 128 && s[0] in LETTERS_AND_DIGITS
              && forall i :: 0 <= i < |s| ==> s[i] in LETTERS_AND_DIGITS || s[i] in extra
  {
    AllLettersAndDigits(s);
    TokenOf(s, extra, LETTERS_AND_DIGITS);
  }

  /** A reference is 1 to 128 letters, digits and other characters of `._:/-`, the first a letter or a digit. */
  lemma ReferenceMeaning(s: string)
    ensures ValidReference(s) <==>
              && 1 <= |s| <= 128 && s[0] in LETTERS_AND_DIGITS
              && forall i :: 0 <= i < |s| ==> s[i] in LETTERS_AND_DIGITS || s[i] in "._:/-"
  {
    TokenMeaning(s, "._:/-");
  }
}
