/**
 * `normalize_address` of the native binding: every leading "0x" is stripped
 * (`trim_start_matches` removes the pattern as long as it matches), then the
 * remainder is lower-cased. Only ASCII letters are case-mapped here.
 */
module Address {

  /** The prefix that `trim_start_matches` removes, exactly as written: lower-case only. */
  const HexPrefix: string := "0x"

  predicate StartsWithHexPrefix(s: string) {
    |s| >= 2 && s[0] == HexPrefix[0] && s[1] == HexPrefix[1]
  }

  /** The character at position k of "0x0x0x...". */
  function PrefixChar(k: nat): char {
    if k % 2 == 0 then HexPrefix[0] else HexPrefix[1]
  }

  /**
   * Strips "0x" for as long as the string starts with it: the result no longer
   * starts with "0x", and it is a suffix of the input shorter by an even amount.
   */
  function TrimHexPrefixes(s: string): (r: string)
    ensures !StartsWithHexPrefix(r)
    ensures |r| <= |s| && (|s| - |r|) % 2 == 0
    decreases |s|
  {
    if StartsWithHexPrefix(s) then TrimHexPrefixes(s[2..]) else s
  }

  /**
   * What TrimHexPrefixes removes is a run reading "0x0x...0x", and what it keeps is
   * the rest of the input, unchanged.
   */
  lemma {:induction false} TrimHexPrefixesShape(s: string)
    ensures var r := TrimHexPrefixes(s);
      r == s[|s| - |r|..] && forall k :: 0 <= k < |s| - |r| ==> s[k] == PrefixChar(k)
    decreases |s|
  {
    if StartsWithHexPrefix(s) {
      TrimHexPrefixesShape(s[2..]);
      var r := TrimHexPrefixes(s);
      assert forall k :: 2 <= k < |s| - |r| ==> s[k] == s[2..][k - 2];
    }
  }

  predicate IsUpper(c: char) {
    'A' <= c <= 'Z'
  }

  predicate HasNoUpper(s: string) {
    forall i :: 0 <= i < |s| ==> !IsUpper(s[i])
  }

  function ToLowerChar(c: char): char {
    if IsUpper(c) then (c as int + 32) as char else c
  }

  /**
   * Lower-cases character by character: same length, every character mapped by
   * ToLowerChar, and no upper-case letter left.
   */
  function ToLower(s: string): (r: string)
    ensures |r| == |s|
    ensures forall i :: 0 <= i < |s| ==> r[i] == ToLowerChar(s[i])
    ensures HasNoUpper(r)
  {
    if s == [] then [] else [ToLowerChar(s[0])] + ToLower(s[1..])
  }

  /** normalize_address: the result never contains an upper-case letter. */
  function Normalize(address: string): (r: string)
    ensures HasNoUpper(r)
    ensures |r| <= |address|
  {
    ToLower(TrimHexPrefixes(address))
  }

  /**
   * The input is an even-length run "0x0x...0x" followed by a remainder that does
   * not start with "0x", and the normalised address is that remainder lower-cased.
   */
  lemma NormalizeShape(address: string)
    ensures exists n: nat ::
      (n <= |address| / 2 && (forall k :: 0 <= k < 2 * n ==> address[k] == PrefixChar(k)) &&
       !StartsWithHexPrefix(address[2 * n..]) && Normalize(address) == ToLower(address[2 * n..]))
  {
    var rest := TrimHexPrefixes(address);
    TrimHexPrefixesShape(address);
    var n := (|address| - |rest|) / 2;
    assert address[2 * n..] == rest;
  }

  /** Every leading "0x" is stripped, not just the first. */
  lemma NormalizeStripsRepeatedPrefix()
    ensures Normalize("0x0xA") == "a"
  {
    assert TrimHexPrefixes("0x0xA") == "A" by {
      assert "0x0xA"[2..] == "0xA" && "0xA"[2..] == "A";
      assert TrimHexPrefixes("A") == "A";
    }
    assert ToLower("A") == "a";
  }

  /** Stripping happens before lower-casing, so an upper-case "0X" is kept (as "0x"). */
  lemma NormalizeKeepsUpperCasePrefix()
    ensures Normalize("0XA") == "0xa"
  {
    assert TrimHexPrefixes("0XA") == "0XA";
    assert ToLower("0XA") == "0xa" by {
      assert ToLower("XA") == "xa" by {
        assert "XA"[1..] == "A";
        assert ToLower("A") == "a";
      }
      assert "0XA"[1..] == "XA";
    }
  }

  /**
   * The strings Normalize leaves alone are exactly those that neither start with
   * "0x" nor contain an upper-case letter.
   */
  lemma NormalizeFixpoint(s: string)
    ensures Normalize(s) == s <==> !StartsWithHexPrefix(s) && HasNoUpper(s)
  {
    if !StartsWithHexPrefix(s) && HasNoUpper(s) {
      assert TrimHexPrefixes(s) == s;
      assert ToLower(s) == s;
    }
    if Normalize(s) == s {
      assert HasNoUpper(s);
      TrimHexPrefixesShape(s);
      assert |TrimHexPrefixes(s)| == |s|;
      assert TrimHexPrefixes(s) == s;
    }
  }

  /**
   * Normalize is not idempotent: an upper-case "0X" is not stripped, so it survives
   * the first pass as "0x" and is stripped by a second one.
   */
  lemma NormalizeNotIdempotent()
    ensures Normalize("0X0xa") == "0x0xa"
    ensures Normalize(Normalize("0X0xa")) == "a"
  {
    assert TrimHexPrefixes("0X0xa") == "0X0xa";
    assert ToLower("0X0xa") == "0x0xa" by {
      assert ToLower("X0xa") == "x0xa" by {
        assert ToLower("0xa") == "0xa" by {
          assert ToLower("xa") == "xa" by {
            assert "xa"[1..] == "a";
            assert ToLower("a") == "a";
          }
          assert "0xa"[1..] == "xa";
        }
        assert "X0xa"[1..] == "0xa";
      }
      assert "0X0xa"[1..] == "X0xa";
    }
    assert TrimHexPrefixes("0x0xa") == "a" by {
      assert "0x0xa"[2..] == "0xa" && "0xa"[2..] == "a";
      assert TrimHexPrefixes("a") == "a";
    }
    assert ToLower("a") == "a";
  }
}
