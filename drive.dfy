/**
 * The Google Drive client as the copy logic sees it: an oracle. Each
 * `createFolder` or `copyFile` request of a run is recorded as a `Call`, and
 * the k-th call of the run (counting from 0) gets the reply `api(k)`. Whether
 * a call succeeds, and which id it returns, is therefore arbitrary: every
 * property below holds for every oracle.
 */
module Drive {

  /** A request issued to the Drive client. */
  datatype Call =
    | CreateFolderCall(name: string, parentId: string)
    | CopyFileCall(fileId: string, parentId: string)

  /** What a failing request throws: an `Error` with its message, or some other value. */
  datatype Thrown = ErrorValue(message: string) | OtherValue

  /** The reply to a request: the id of the created folder or file, or a thrown value. */
  datatype Reply = Returned(id: string) | Threw(thrown: Thrown)

  /** The replies of one run, by call number. */
  type Api = nat -> Reply

  /** The folder a request places its result in. */
  function ParentOf(c: Call): string
  {
    match c
    case CreateFolderCall(_, p) => p
    case CopyFileCall(_, p) => p
  }
}

/**
 * The two JavaScript string primitives the core uses: `String.prototype.trim`
 * and `String.prototype.startsWith`.
 */
module JsText {

  /** The characters `trim` removes: ECMAScript WhiteSpace and LineTerminator. */
  predicate IsWhiteSpace(c: char)
  {
    c == '\t' || c == '\n' || c == '\U{B}' || c == '\U{C}' || c == '\r' || c == ' '
    || c == '\U{A0}' || c == '\U{1680}' || ('\U{2000}' <= c <= '\U{200A}')
    || c == '\U{2028}' || c == '\U{2029}' || c == '\U{202F}' || c == '\U{205F}'
    || c == '\U{3000}' || c == '\U{FEFF}'
  }

  /** `s` with its leading white space removed. */
  function TrimStart(s: string): (r: string)
    ensures |r| <= |s| && r == s[|s| - |r|..]
    ensures r != [] ==> !IsWhiteSpace(r[0])
    ensures forall i :: 0 <= i < |s| - |r| ==> IsWhiteSpace(s[i])
  {
    if s != [] && IsWhiteSpace(s[0]) then TrimStart(s[1..]) else s
  }

  /** `s` with its trailing white space removed. */
  function TrimEnd(s: string): (r: string)
    ensures |r| <= |s| && r == s[..|r|]
    ensures r != [] ==> !IsWhiteSpace(r[|r| - 1])
    ensures forall i :: |r| <= i < |s| ==> IsWhiteSpace(s[i])
  {
    if s != [] && IsWhiteSpace(s[|s| - 1]) then TrimEnd(s[..|s| - 1]) else s
  }

  /** `s.trim()` */
  function Trim(s: string): string
  {
    TrimEnd(TrimStart(s))
  }

  /** `s.trim() === ''` holds exactly when every character of `s` is white space. */
  lemma TrimEmpty(s: string)
    ensures Trim(s) == "" <==> forall i :: 0 <= i < |s| ==> IsWhiteSpace(s[i])
  {
    var t := TrimStart(s);
    if Trim(s) == "" {
      assert |TrimEnd(t)| == 0;
    } else {
      var r := Trim(s);
      assert r[0] == t[0];
      assert !IsWhiteSpace(s[|s| - |t|]);
    }
  }

  /** `s.startsWith(p)` */
  predicate StartsWith(s: string, p: string)
  {
    |p| <= |s| && s[..|p|] == p
  }

  /** The number a string of decimal digits denotes, most significant first. */
  function DigitsValue(s: string): nat
    requires forall i :: 0 <= i < |s| ==> '0' <= s[i] <= '9'
  {
    if s == [] then 0 else 10 * DigitsValue(s[..|s| - 1]) + (s[|s| - 1] - '0') as nat
  }

  /** `String(n)` for a count: its decimal digits, most significant first, with no leading zero. */
  function NatText(n: nat): (text: string)
    ensures |text| >= 1 && forall i :: 0 <= i < |text| ==> '0' <= text[i] <= '9'
    ensures |text| > 1 ==> text[0] != '0'
    ensures DigitsValue(text) == n
  {
    var digit := ['0' + (n % 10) as char];
    if n < 10 then digit
    else
      var text := NatText(n / 10) + digit;
      assert text[..|text| - 1] == NatText(n / 10);
      text
  }
}
