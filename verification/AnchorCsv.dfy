/** The comma-separated anchor ids of a stored row: joining, splitting, stripping. */
module AnchorCsv {

  /** What Python's str.strip() removes. */
  predicate IsSpace(c: char) {
    || c == ' ' || '\U{0009}' <= c <= '\U{000D}' || '\U{001C}' <= c <= '\U{001F}'
    || c == '\U{0085}' || c == '\U{00A0}' || c == '\U{1680}' || '\U{2000}' <= c <= '\U{200A}'
    || c == '\U{2028}' || c == '\U{2029}' || c == '\U{202F}' || c == '\U{205F}' || c == '\U{3000}'
  }

  function StripLeft(s: string): string {
    if s != "" && IsSpace(s[0]) then StripLeft(s[1..]) else s
  }

  function StripRight(s: string): string {
    if s != "" && IsSpace(s[|s| - 1]) then StripRight(s[..|s| - 1]) else s
  }

  function Strip(s: string): string {
    StripRight(StripLeft(s))
  }

  function Split(s: string): (parts: seq<string>)
    ensures parts != []
  {
    if s == "" then [""] else
    var rest := Split(s[1..]);
    if s[0] == ',' then [""] + rest else [[s[0]] + rest[0]] + rest[1..]
  }

  function Join(ids: seq<string>): string {
    if ids == [] then "" else if |ids| == 1 then ids[0] else ids[0] + "," + Join(ids[1..])
  }

  /** The parts that are not blank, stripped. */
  function Stripped(parts: seq<string>): seq<string> {
    if parts == [] then [] else
    (if Strip(parts[0]) == "" then [] else [Strip(parts[0])]) + Stripped(parts[1..])
  }

  /** The ids that a stored row makes the crawler look for, in order. */
  function Anchors(externalId: string): seq<string> {
    Stripped(Split(externalId))
  }

  predicate Clean(id: string) {
    id != "" && ',' !in id && !IsSpace(id[0]) && !IsSpace(id[|id| - 1])
  }

  lemma {:induction false} StripLeftPart(s: string)
    ensures var t := StripLeft(s); (t == "" || !IsSpace(t[0])) && forall c :: c in t ==> c in s
  {
    if s != "" && IsSpace(s[0]) { StripLeftPart(s[1..]); }
  }

  lemma {:induction false} StripRightPart(s: string)
    ensures var t := StripRight(s);
      && (t == "" || !IsSpace(t[|t| - 1]))
      && t <= s
  {
    if s != "" && IsSpace(s[|s| - 1]) { StripRightPart(s[..|s| - 1]); }
  }

  lemma StripIsClean(s: string)
    requires ',' !in s
    ensures Strip(s) == "" || Clean(Strip(s))
  {
    StripLeftPart(s);
    StripRightPart(StripLeft(s));
  }

  lemma StripClean(id: string)
    requires Clean(id)
    ensures Strip(id) == id
  {
  }

  lemma {:induction false} SplitHasNoCommas(s: string)
    ensures forall i :: 0 <= i < |Split(s)| ==> ',' !in Split(s)[i]
  {
    if s != "" { SplitHasNoCommas(s[1..]); }
  }

  lemma {:induction false} StrippedAreClean(parts: seq<string>)
    requires forall i :: 0 <= i < |parts| ==> ',' !in parts[i]
    ensures forall i :: 0 <= i < |Stripped(parts)| ==> Clean(Stripped(parts)[i])
  {
    if parts != [] {
      StrippedAreClean(parts[1..]);
      StripIsClean(parts[0]);
    }
  }

  lemma {:induction false} SplitFirst(a: string, b: string)
    requires ',' !in a
    ensures Split(a + "," + b) == [a] + Split(b)
  {
    var s := a + "," + b;
    if a == "" {
      assert s[1..] == b;
    } else {
      assert s[1..] == a[1..] + "," + b;
      SplitFirst(a[1..], b);
      assert a[0] in a && s[0] == a[0] && [a[0]] + a[1..] == a;
    }
  }

  lemma {:induction false} SplitNoComma(a: string)
    requires ',' !in a
    ensures Split(a) == [a]
  {
    if a != "" {
      SplitNoComma(a[1..]);
      assert a[0] in a && [a[0]] + a[1..] == a;
    }
  }

  lemma {:induction false} SplitJoin(ids: seq<string>)
    requires ids != [] && forall i :: 0 <= i < |ids| ==> Clean(ids[i])
    ensures Split(Join(ids)) == ids
  {
    if |ids| == 1 {
      SplitNoComma(ids[0]);
    } else {
      SplitJoin(ids[1..]);
      SplitFirst(ids[0], Join(ids[1..]));
    }
  }

  lemma {:induction false} StrippedClean(ids: seq<string>)
    requires forall i :: 0 <= i < |ids| ==> Clean(ids[i])
    ensures Stripped(ids) == ids
  {
    if ids != [] {
      StripClean(ids[0]);
      StrippedClean(ids[1..]);
    }
  }

  /** Reading back what was stored gives the stored ids, in order, exactly when every one of them is non-empty,
      free of commas and already stripped. */
  lemma {:induction false} RoundTrip(ids: seq<string>)
    ensures Anchors(Join(ids)) == ids <==> forall i :: 0 <= i < |ids| ==> Clean(ids[i])
  {
    if forall i :: 0 <= i < |ids| ==> Clean(ids[i]) {
      if ids != [] {
        SplitJoin(ids);
      }
      StrippedClean(ids);
    }
    SplitHasNoCommas(Join(ids));
    StrippedAreClean(Split(Join(ids)));
  }
}
