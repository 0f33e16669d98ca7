/** How the worker's script text is made: the source text of the worker
    function is cut down to what lies strictly between its first "{" and its
    last "}", with the JavaScript string operations indexOf, lastIndexOf and
    substring modelled as they are defined for strings (a missing character
    gives -1; substring clamps both bounds into the string and swaps them when
    the start is past the end). */
module WorkerScript {

  /** s.indexOf(c): the first position of c, or -1. */
  function IndexOf(s: string, c: char): (r: int)
    ensures -1 <= r < |s|
    ensures r >= 0 ==> s[r] == c && forall k :: 0 <= k < r ==> s[k] != c
    ensures r == -1 <==> c !in s
  {
    if s == [] then -1
    else if s[0] == c then 0
    else
      var k := IndexOf(s[1..], c);
      assert c in s[1..] ==> c in s;
      assert c in s && s[0] != c ==> c in s[1..] by {
        if c in s && s[0] != c {
          var i :| 0 <= i < |s| && s[i] == c;
          assert s[1..][i - 1] == c;
        }
      }
      if k == -1 then -1 else k + 1
  }

  /** s.lastIndexOf(c): the last position of c, or -1. */
  function LastIndexOf(s: string, c: char): (r: int)
    ensures -1 <= r < |s|
    ensures r >= 0 ==> s[r] == c && forall k :: r < k < |s| ==> s[k] != c
    ensures r == -1 <==> c !in s
  {
    if s == [] then -1
    else if s[|s| - 1] == c then |s| - 1
    else
      var front := s[..|s| - 1];
      assert s == front + [s[|s| - 1]];
      LastIndexOf(front, c)
  }

  function Clamp(i: int, len: nat): (r: nat)
    ensures r <= len
    ensures 0 <= i <= len ==> r == i
  {
    if i < 0 then 0 else if i > len then len else i
  }

  /** s.substring(start, end) */
  function Substring(s: string, start: int, end: int): (r: string)
    ensures 0 <= start <= end <= |s| ==> r == s[start..end]
    ensures 0 <= end <= start <= |s| ==> r == s[end..start]
  {
    var a, b := Clamp(start, |s|), Clamp(end, |s|);
    if a <= b then s[a..b] else s[b..a]
  }

  /** code.substring(code.indexOf("{") + 1, code.lastIndexOf("}")) */
  function ExtractBody(code: string): string
  {
    Substring(code, IndexOf(code, '{') + 1, LastIndexOf(code, '}'))
  }

  /** When the text has a "{" before its last "}", the body is exactly the text
      strictly between the first "{" and the last "}". */
  lemma BodyBetweenBraces(code: string)
    requires '{' in code && '}' in code && IndexOf(code, '{') < LastIndexOf(code, '}')
    ensures var i, j := IndexOf(code, '{'), LastIndexOf(code, '}');
      ExtractBody(code) == code[i + 1..j] && |ExtractBody(code)| == j - i - 1
  {
  }

  /** A function text made of a header without "{", the body in braces, and a
      trailer without "}" gives back exactly the body, whatever braces the
      body itself contains. */
  lemma ExtractWrappedBody(header: string, body: string, trailer: string)
    requires '{' !in header && '}' !in trailer
    ensures ExtractBody(header + "{" + body + "}" + trailer) == body
  {
    var code := header + "{" + body + "}" + trailer;
    var i, j := |header|, |header| + 1 + |body|;
    assert code[i] == '{' && code[j] == '}';
    assert forall k :: 0 <= k < i ==> code[k] == header[k];
    assert forall k :: j < k < |code| ==> code[k] == trailer[k - j - 1];
    assert IndexOf(code, '{') == i;
    assert LastIndexOf(code, '}') == j;
    assert code[i + 1..j] == body;
  }

  /** With no braces at all, both bounds clamp to zero and the body is empty. */
  lemma NoBracesGivesEmpty(code: string)
    requires '{' !in code && '}' !in code
    ensures ExtractBody(code) == ""
  {
  }

  /** With a "}" but no "{", the start falls to 0: everything before the last "}". */
  lemma NoOpeningBrace(code: string)
    requires '{' !in code && '}' in code
    ensures ExtractBody(code) == code[..LastIndexOf(code, '}')]
  {
  }

  /** When the first "{" comes after the last "}", substring swaps its bounds:
      the result runs from the last "}" up to and including the first "{". */
  lemma BracesOutOfOrder(code: string)
    requires '{' in code && '}' in code && IndexOf(code, '{') > LastIndexOf(code, '}')
    ensures ExtractBody(code) == code[LastIndexOf(code, '}')..IndexOf(code, '{') + 1]
  {
  }
}
