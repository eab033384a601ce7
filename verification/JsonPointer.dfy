/** JSON pointers, as section 4 of RFC 6901 writes and evaluates them. */
module JsonPointer {
  import opened Prelude
  import opened Text

  predicate EscapesOk(s: string) {
    if s == "" then true
    else if s[0] == '~' then |s| >= 2 && (s[1] == '0' || s[1] == '1') && EscapesOk(s[2..])
    else EscapesOk(s[1..])
  }

  predicate IsPointer(s: string) {
    s == "" || (s[0] == '/' && EscapesOk(s))
  }

  function DecodeSegment(s: string): Option<string> {
    if s == "" then Some("")
    else if s[0] != '~' then
      match DecodeSegment(s[1..])
      case None => None
      case Some(rest) => Some([s[0]] + rest)
    else if |s| >= 2 && (s[1] == '0' || s[1] == '1') then
      match DecodeSegment(s[2..])
      case None => None
      case Some(rest) => Some([if s[1] == '0' then '~' else '/'] + rest)
    else None
  }

  function DecodeAll(parts: seq<string>): Option<seq<string>> {
    if parts == [] then Some([])
    else
      match (DecodeSegment(parts[0]), DecodeAll(parts[1..]))
      case (Some(first), Some(rest)) => Some([first] + rest)
      case _ => None
  }

  function Decode(pointer: string): Option<seq<string>> {
    if pointer == "" then Some([])
    else if pointer[0] != '/' then None
    else DecodeAll(Split(pointer[1..], '/'))
  }

  function EncodeSegment(s: string): string {
    if s == "" then ""
    else (if s[0] == '~' then "~0" else if s[0] == '/' then "~1" else [s[0]]) + EncodeSegment(s[1..])
  }

  function EncodeAll(segments: seq<string>): seq<string> {
    if segments == [] then [] else [EncodeSegment(segments[0])] + EncodeAll(segments[1..])
  }

  function Encode(segments: seq<string>): string {
    if segments == [] then "" else "/" + Join(EncodeAll(segments), '/')
  }

  lemma {:induction false} SegmentDecodesOnce(s: string)
    requires DecodeSegment(s).Some? && '/' !in s
    ensures EncodeSegment(DecodeSegment(s).value) == s
  {
    if s != "" {
      if s[0] != '~' {
        SegmentDecodesOnce(s[1..]);
        assert s == [s[0]] + s[1..];
      } else {
        SegmentDecodesOnce(s[2..]);
        assert s == [s[0], s[1]] + s[2..];
      }
      assert DecodeSegment(s).value[1..] == DecodeSegment(if s[0] != '~' then s[1..] else s[2..]).value;
    }
  }

  lemma {:induction false} SegmentRoundTrip(s: string)
    ensures DecodeSegment(EncodeSegment(s)) == Some(s) && '/' !in EncodeSegment(s)
  {
    if s != "" {
      SegmentRoundTrip(s[1..]);
      var e := EncodeSegment(s);
      assert s == [s[0]] + s[1..];
      if s[0] == '~' || s[0] == '/' {
        assert e[2..] == EncodeSegment(s[1..]);
      } else {
        assert e[1..] == EncodeSegment(s[1..]);
      }
    }
  }

  lemma {:induction false} PartsDecodeOnce(parts: seq<string>)
    requires DecodeAll(parts).Some? && forall p | p in parts :: '/' !in p
    ensures EncodeAll(DecodeAll(parts).value) == parts && |DecodeAll(parts).value| == |parts|
  {
    if parts != [] {
      SegmentDecodesOnce(parts[0]);
      PartsDecodeOnce(parts[1..]);
      assert DecodeAll(parts).value[1..] == DecodeAll(parts[1..]).value;
    }
  }

  lemma {:induction false} PartsRoundTrip(segments: seq<string>)
    ensures DecodeAll(EncodeAll(segments)) == Some(segments) && |EncodeAll(segments)| == |segments|
    ensures forall p | p in EncodeAll(segments) :: '/' !in p
  {
    if segments != [] {
      SegmentRoundTrip(segments[0]);
      PartsRoundTrip(segments[1..]);
      assert EncodeAll(segments)[1..] == EncodeAll(segments[1..]);
      assert segments == [segments[0]] + segments[1..];
    }
  }

  /** A decoded pointer has one text only: distinct pointers name distinct places. */
  lemma PointerDecodesOnce(pointer: string)
    requires Decode(pointer).Some?
    ensures Encode(Decode(pointer).value) == pointer
  {
    if pointer != "" {
      PartsDecodeOnce(Split(pointer[1..], '/'));
      JoinInvertsSplit(pointer[1..], '/');
      assert pointer == "/" + pointer[1..];
    }
  }

  lemma PointerRoundTrip(segments: seq<string>)
    ensures Decode(Encode(segments)) == Some(segments)
  {
    if segments != [] {
      PartsRoundTrip(segments);
      SplitInvertsJoin(EncodeAll(segments), '/');
      assert Encode(segments)[1..] == Join(EncodeAll(segments), '/');
    }
  }

  lemma {:induction false} EscapesSplit(a: string, b: string)
    requires '/' !in a
    ensures EscapesOk(a + "/" + b) <==> EscapesOk(a) && EscapesOk(b)
  {
    var s := a + "/" + b;
    if a == "" {
      assert s[1..] == b;
    } else if a[0] == '~' {
      if |a| >= 2 {
        assert s[1] == a[1] && s[2..] == a[2..] + "/" + b;
        EscapesSplit(a[2..], b);
      } else {
        assert s[1] == '/';
      }
    } else {
      assert s[1..] == a[1..] + "/" + b;
      EscapesSplit(a[1..], b);
    }
  }

  lemma {:induction false} SegmentEscapes(s: string)
    ensures EscapesOk(s) <==> DecodeSegment(s).Some?
  {
    if s != "" {
      if s[0] != '~' {
        SegmentEscapes(s[1..]);
      } else if |s| >= 2 {
        SegmentEscapes(s[2..]);
      }
    }
  }

  lemma {:induction false} PartsEscape(parts: seq<string>)
    requires |parts| >= 1 && forall p | p in parts :: '/' !in p
    ensures EscapesOk(Join(parts, '/')) <==> DecodeAll(parts).Some?
  {
    SegmentEscapes(parts[0]);
    if |parts| > 1 {
      PartsEscape(parts[1..]);
      EscapesSplit(parts[0], Join(parts[1..], '/'));
      assert Join(parts, '/') == parts[0] + "/" + Join(parts[1..], '/');
    } else {
      assert parts[1..] == [];
    }
  }

  /** The scan over the raw bytes accepts exactly what decodes. */
  lemma PointersDecode(pointer: string)
    ensures IsPointer(pointer) <==> Decode(pointer).Some?
  {
    if pointer != "" && pointer[0] == '/' {
      PartsEscape(Split(pointer[1..], '/'));
      JoinInvertsSplit(pointer[1..], '/');
      assert EscapesOk(pointer) <==> EscapesOk(pointer[1..]);
    }
  }

  /** The validator's scan: a loop over the characters that skips escapes two at a time. */
  method ScanPointer(pointer: string) returns (valid: bool)
    ensures valid <==> Decode(pointer).Some?
  {
    PointersDecode(pointer);
    if pointer == "" {
      return true;
    }
    if pointer[0] != '/' {
      return false;
    }
    var index := 0;
    while index < |pointer|
      invariant index <= |pointer|
      invariant EscapesOk(pointer) <==> EscapesOk(pointer[index..])
    {
      if pointer[index] == '~' {
        if index + 1 >= |pointer| || (pointer[index + 1] != '0' && pointer[index + 1] != '1') {
          return false;
        }
        assert pointer[index..][2..] == pointer[index + 2..];
        index := index + 2;
      } else {
        assert pointer[index..][1..] == pointer[index + 1..];
        index := index + 1;
      }
    }
    return true;
  }
}
