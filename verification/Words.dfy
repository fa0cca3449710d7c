/** The words of the parser as text, and what it means that case does not matter. */
module Words {
  import opened Bytes
  import opened HeaderNames
  import CO = Connection

  function Text(s: string): (w: seq<byte>)
    requires forall i :: 0 <= i < |s| ==> s[i] as int < 128
    ensures |w| == |s|
  {
    seq(|s|, i requires 0 <= i < |s| => s[i] as int)
  }

  lemma WordsAreText()
    ensures W_HTTP == Text("HTTP/") && W_CHUNKED == Text("chunked") && UPGRADE == Text("upgrade")
    ensures CO.CLOSE_OPTION == Text("close") && CO.KEEP_ALIVE_OPTION == Text("keep-alive")
  {
  }

  lemma NamesAreText()
    ensures CONNECTION == Text("connection") && PROXY_CONNECTION == Text("proxy-connection")
    ensures CONTENT_LENGTH == Text("content-length") && TRANSFER_ENCODING == Text("transfer-encoding")
  {
  }

  /** Small letters and hyphens. */
  predicate IsSmall(word: seq<byte>) {
    forall i :: 0 <= i < |word| ==> 97 <= word[i] <= 122 || word[i] == 45
  }

  /** The word, in which any letters may be capitals. */
  predicate Spells(w: seq<byte>, word: seq<byte>) {
    |w| == |word| && forall i :: 0 <= i < |word| ==> w[i] == word[i] || (97 <= word[i] && w[i] == word[i] - 32)
  }

  lemma CaseDoesNotMatter(w: seq<byte>, word: seq<byte>)
    requires IsSmall(word)
    ensures BeginsWith(w, word) <==> |word| <= |w| && Spells(w[..|word|], word)
  {
  }

  /** The name, in any case, with any number of spaces behind it. */
  predicate IsNamed(name: seq<byte>, word: seq<byte>) {
    |word| <= |name| && Spells(name[..|word|], word) && forall i :: |word| <= i < |name| ==> name[i] == 32
  }

  lemma NamesIsNamed(name: seq<byte>, word: seq<byte>)
    requires IsSmall(word)
    ensures Names(name, word) <==> IsNamed(name, word)
  {
    CaseDoesNotMatter(name, word);
    if |word| <= |name| {
      var rest := name[|word|..];
      assert forall i :: 0 <= i < |rest| ==> rest[i] == name[|word| + i];
      assert forall i :: |word| <= i < |name| ==> name[i] == rest[i - |word|];
    }
  }

  /** The names that the parser gives a meaning. */
  lemma KnownNames(name: seq<byte>)
    ensures NameCode(name) ==
      if IsNamed(name, Text("connection")) || IsNamed(name, Text("proxy-connection")) then 1
      else if IsNamed(name, Text("content-length")) then 2
      else if IsNamed(name, Text("transfer-encoding")) then 3
      else if IsNamed(name, Text("upgrade")) then 4
      else 0
  {
    WordsAreText();
    NamesAreText();
    assert IsSmall(CONNECTION) && IsSmall(PROXY_CONNECTION) && IsSmall(CONTENT_LENGTH) && IsSmall(TRANSFER_ENCODING) && IsSmall(UPGRADE);
    hide Names, IsNamed, IsSmall, Text;
    NamesIsNamed(name, CONNECTION);
    NamesIsNamed(name, PROXY_CONNECTION);
    NamesIsNamed(name, CONTENT_LENGTH);
    NamesIsNamed(name, TRANSFER_ENCODING);
    NamesIsNamed(name, UPGRADE);
  }

  /** A hexadecimal digit is worth its place among the sixteen, in either case. */
  lemma HexPlaces(c: byte)
    ensures IsHex(c) <==> c in Text("0123456789abcdef") || c in Text("ABCDEF")
    ensures IsHex(c) ==> var v := HexValue(c); v < 16 && (Text("0123456789abcdef")[v] == c || (v >= 10 && Text("ABCDEF")[v - 10] == c))
  {
    var small, large := Text("0123456789abcdef"), Text("ABCDEF");
    assert forall i :: 0 <= i < 10 ==> small[i] == 48 + i;
    assert forall i :: 10 <= i < 16 ==> small[i] == 87 + i;
    assert forall i :: 0 <= i < 6 ==> large[i] == 65 + i;
    if IsHex(c) {
      var v := HexValue(c);
      assert small[v] == c || (v >= 10 && large[v - 10] == c);
    }
  }
}
