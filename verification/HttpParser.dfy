/** The request parser on the bytes received so far, one character a byte. It is destructive: it
    moves a cursor and overwrites fields as it goes. A copy that does not fit its field, or whose
    length is negative, and a header line without an end, are outside the language's rules; the
    parser's outcome is then Undefined. */
module HttpParser {
  import opened Threads
  const METHOD_LEN: nat := 8
  const URI_LEN: nat := 128
  const VERSION_LEN: nat := 16
  const HOST_LEN: nat := 128
  const ACCEPT_LEN: nat := 128
  const CONN_LEN: nat := 20

  /** The bytes last copied into each field of the connection, if any. */
  datatype Fields = Fields(
    requestMethod: Option<string>,
    uri: Option<string>,
    version: Option<string>,
    host: Option<string>,
    accept: Option<string>,
    conn: Option<string>)

  const NO_FIELDS := Fields(None, None, None, None, None, None)

  datatype Parse =
    | Incomplete(start: nat, fields: Fields)
    | Parsed(start: nat, fields: Fields)
    | Undefined

  /** strpbrk: the first position from i on that holds one of the characters. */
  function Find(data: string, i: nat, chars: string): (r: Option<nat>)
    requires i <= |data|
    ensures r.Some? ==> i <= r.value < |data| && data[r.value] in chars
    decreases |data| - i
  {
    if i == |data| then None
    else if data[i] in chars then Some(i)
    else Find(data, i + 1, chars)
  }

  function Lower(c: char): char {
    if 'A' <= c <= 'Z' then (c as int + 32) as char else c
  }

  /** strncasecmp of the bytes at position i with a lower-case literal, over the literal's length. */
  predicate Matches(data: string, i: nat, lit: string)
    requires i <= |data|
  {
    i + |lit| <= |data| && forall k | 0 <= k < |lit| :: Lower(data[i + k]) == lit[k]
  }

  /** strncpy of len bytes from position `from` into a field with the given room. */
  function Copy(data: string, from: nat, len: int, room: nat): Option<string> {
    if 0 <= len <= room && from + len <= |data| then Some(data[from..from + len]) else None
  }

  /** One header line, at start and of length len: the recognised field is copied. */
  function HeaderLine(data: string, start: nat, len: nat, f: Fields): Option<Fields>
    requires start + len <= |data|
  {
    if Matches(data, start, "host:") then
      var c := Copy(data, start + 6, len - 6, HOST_LEN);
      if c.None? then None else Some(f.(host := c))
    else if Matches(data, start, "accept:") then
      var c := Copy(data, start + 8, len - 8, ACCEPT_LEN);
      if c.None? then None else Some(f.(accept := c))
    else if Matches(data, start, "connection:") then
      var c := Copy(data, start + 12, len - 12, CONN_LEN);
      if c.None? then None else Some(f.(conn := c))
    else Some(f)
  }

  /** process_head: header lines up to and including the first line of exactly one byte. */
  function ParseHead(data: string, start: nat, f: Fields): Parse
    requires start <= |data|
    decreases |data| - start
  {
    match Find(data, start, "\n")
    case None => Undefined
    case Some(end) =>
      var len := end - start;
      if len == 1 then Parsed(end + 1, f)
      else match HeaderLine(data, start, len, f)
           case None => Undefined
           case Some(g) => ParseHead(data, end + 1, g)
  }

  /** The third part of process_request_line. The version's end is looked for from the first byte of the
      buffer, not from the cursor. */
  function ParseVersion(data: string, start: nat, f: Fields): Parse
    requires start <= |data|
  {
    match Find(data, 0, "\n")
    case None => Incomplete(start, f)
    case Some(n) =>
      var c := Copy(data, start, n - start, VERSION_LEN);
      if c.None? then Undefined else ParseHead(data, n + 1, f.(version := c))
  }

  /** The second part, going on to the third. */
  function ParseUri(data: string, start: nat, f: Fields): Parse
    requires start <= |data|
  {
    match Find(data, start, " \t")
    case None => Incomplete(start, f)
    case Some(q) =>
      var c := Copy(data, start, q - start, URI_LEN);
      if c.None? then Undefined else ParseVersion(data, q + 1, f.(uri := c))
  }

  /** process_request_line, going on to the head. */
  function ParseRequestLine(data: string, start: nat, f: Fields): Parse
    requires start <= |data|
  {
    match Find(data, start, " \t")
    case None => Incomplete(start, f)
    case Some(p) =>
      var c := Copy(data, start, p - start, METHOD_LEN);
      if c.None? then Undefined else ParseUri(data, p + 1, f.(requestMethod := c))
  }
}
