/**
  The text that the chat server relays: every line a client sends is
  re-broadcast to the other clients as "Client <id>: <line>", where <id>
  is the sender's generated identity (the textual form of a random UUID).

  This module defines that message shape, an inverse that recovers the
  sender and the line from a relayed message, and the shape of the
  generated identities, and proves that the prefix attributes every
  relayed line to its sender unambiguously.
 */
module Messages {

  datatype Option<T> = None | Some(value: T)

  const Prefix: string := "Client "
  const Separator: string := ": "

  /** The line as the server relays it on behalf of client `id`. */
  function Format(id: string, line: string): string
  {
    Prefix + id + Separator + line
  }

  /** The messages a session relays for the lines it read, in read order. */
  function Formatted(id: string, lines: seq<string>): seq<string>
  {
    seq(|lines|, i requires 0 <= i < |lines| => Format(id, lines[i]))
  }

  /** The position of the first `c` in `s`, or `|s|` when there is none. */
  function IndexOf(s: string, c: char): (r: nat)
    ensures r <= |s|
    ensures r < |s| ==> s[r] == c
    ensures forall i :: 0 <= i < r ==> s[i] != c
  {
    if s == [] then 0
    else if s[0] == c then 0
    else 1 + IndexOf(s[1..], c)
  }

  /**
    Splits a relayed message into its sender identity and its line: the
    identity runs up to the first ':' after the prefix, and the line
    starts after the ": " that follows it.
   */
  function Parse(m: string): (r: Option<(string, string)>)
    ensures r.Some? ==> ':' !in r.value.0 && m == Format(r.value.0, r.value.1)
  {
    if |m| < |Prefix| || m[..|Prefix|] != Prefix then None
    else
      var rest := m[|Prefix|..];
      var j := IndexOf(rest, ':');
      if j + 1 < |rest| && rest[j + 1] == ' ' then
        assert rest == rest[..j] + Separator + rest[j + 2..];
        assert m == Prefix + rest;
        Some((rest[..j], rest[j + 2..]))
      else None
  }

  /** Parsing a relayed message gives back its sender and its line. */
  lemma ParseFormat(id: string, line: string)
    requires ':' !in id
    ensures Parse(Format(id, line)) == Some((id, line))
  {
    var m := Format(id, line);
    assert m[..|Prefix|] == Prefix;
    var rest := m[|Prefix|..];
    assert rest == id + Separator + line;
    assert rest[|id|] == ':';
    var j := IndexOf(rest, ':');
    assert j == |id|;
    assert rest[..j] == id;
    assert rest[j + 2..] == line;
  }

  /**
    Two relayed messages are equal only when they come from the same
    sender and carry the same line, as long as identities hold no ':'.
   */
  lemma FormatInjective(id1: string, line1: string, id2: string, line2: string)
    requires ':' !in id1 && ':' !in id2
    requires Format(id1, line1) == Format(id2, line2)
    ensures id1 == id2 && line1 == line2
  {
    ParseFormat(id1, line1);
    ParseFormat(id2, line2);
  }

  predicate IsHexDigit(c: char)
  {
    '0' <= c <= '9' || 'a' <= c <= 'f'
  }

  /**
    The canonical text of a UUID: 36 characters, lower-case hex digits in
    groups of 8-4-4-4-12 separated by '-'.
   */
  predicate IsUuidText(s: string)
  {
    && |s| == 36
    && forall i :: 0 <= i < |s| ==>
         if i == 8 || i == 13 || i == 18 || i == 23 then s[i] == '-' else IsHexDigit(s[i])
  }

  /** Generated identities are non-empty and never contain ':'. */
  lemma UuidTextAttributable(s: string)
    requires IsUuidText(s)
    ensures s != [] && ':' !in s
  {
  }
}
