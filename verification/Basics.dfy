/** Small shared definitions. */
module Basics {

  datatype Option<+T> = None | Some(value: T)

  /** The characters JavaScript's `trim` removes. */
  predicate IsSpace(c: char) {
    || '\t' <= c <= '\r'
    || c == ' '
    || c == '\U{00A0}' || c == '\U{1680}' || '\U{2000}' <= c <= '\U{200A}'
    || c == '\U{2028}' || c == '\U{2029}' || c == '\U{202F}' || c == '\U{205F}'
    || c == '\U{3000}' || c == '\U{FEFF}'
  }

  function TrimStart(s: string): string {
    if s != "" && IsSpace(s[0]) then TrimStart(s[1..]) else s
  }

  function TrimEnd(s: string): string {
    if s != "" && IsSpace(s[|s| - 1]) then TrimEnd(s[..|s| - 1]) else s
  }

  function Trim(s: string): string {
    TrimEnd(TrimStart(s))
  }

  /** The text without the white space at either end. */
  ghost predicate Trims(text: string, trimmed: string) {
    && (exists before, after :: text == before + trimmed + after && AllSpace(before) && AllSpace(after))
    && (trimmed != "" ==> !IsSpace(trimmed[0]) && !IsSpace(trimmed[|trimmed| - 1]))
  }

  predicate AllSpace(text: string) {
    forall i :: 0 <= i < |text| ==> IsSpace(text[i])
  }

  lemma {:induction false} TrimmedStart(text: string) returns (before: string)
    ensures text == before + TrimStart(text) && AllSpace(before)
    ensures TrimStart(text) != "" ==> !IsSpace(TrimStart(text)[0])
  {
    before := "";
    if text != "" && IsSpace(text[0]) {
      before := TrimmedStart(text[1..]);
      before := [text[0]] + before;
    }
  }

  lemma {:induction false} TrimmedEnd(text: string) returns (after: string)
    ensures text == TrimEnd(text) + after && AllSpace(after)
    ensures TrimEnd(text) != "" ==> !IsSpace(TrimEnd(text)[|TrimEnd(text)| - 1])
  {
    after := "";
    if text != "" && IsSpace(text[|text| - 1]) {
      after := TrimmedEnd(text[..|text| - 1]);
      after := after + [text[|text| - 1]];
    }
  }

  lemma TrimTrims(text: string)
    ensures Trims(text, Trim(text))
  {
    var before := TrimmedStart(text);
    var after := TrimmedEnd(TrimStart(text));
    assert text == before + Trim(text) + after;
  }

  /** The kept elements are those that qualify, each once and in order. */
  ghost predicate Picks<T>(all: seq<T>, kept: seq<T>, keep: T -> bool) {
    exists places: seq<int> :: PicksAt(all, kept, keep, places)
  }

  ghost predicate PicksAt<T>(all: seq<T>, kept: seq<T>, keep: T -> bool, places: seq<int>) {
    && |places| == |kept|
    && (forall k :: 0 <= k < |places| ==> 0 <= places[k] < |all| && kept[k] == all[places[k]])
    && (forall j, k :: 0 <= j < k < |places| ==> places[j] < places[k])
    && forall i :: 0 <= i < |all| ==> (i in places <==> keep(all[i]))
  }

  lemma PicksNone<T>(keep: T -> bool)
    ensures Picks([], [], keep)
  {
    assert PicksAt([], [], keep, []);
  }

  lemma PicksNext<T>(all: seq<T>, kept: seq<T>, keep: T -> bool, next: T)
    requires Picks(all, kept, keep)
    ensures Picks(all + [next], if keep(next) then kept + [next] else kept, keep)
  {
    hide PicksAt;
    var places :| PicksAt(all, kept, keep, places);
    if keep(next) {
      PickNext(all, kept, keep, places, next);
    } else {
      SkipNext(all, kept, keep, places, next);
    }
  }

  lemma PickNext<T>(all: seq<T>, kept: seq<T>, keep: T -> bool, places: seq<int>, next: T)
    requires PicksAt(all, kept, keep, places) && keep(next)
    ensures PicksAt(all + [next], kept + [next], keep, places + [|all|])
  {
    var n, longer := |all|, places + [|all|];
    forall k | 0 <= k < |longer| ensures 0 <= longer[k] <= n && (kept + [next])[k] == (all + [next])[longer[k]] {
      if k < |places| {
        assert longer[k] == places[k] && (kept + [next])[k] == kept[k] && (all + [next])[places[k]] == all[places[k]];
      }
    }
    forall i | 0 <= i <= n ensures i in longer <==> keep((all + [next])[i]) {
      assert i in longer <==> i in places || i == n;
      assert i < n ==> (all + [next])[i] == all[i];
    }
  }

  lemma SkipNext<T>(all: seq<T>, kept: seq<T>, keep: T -> bool, places: seq<int>, next: T)
    requires PicksAt(all, kept, keep, places) && !keep(next)
    ensures PicksAt(all + [next], kept, keep, places)
  {
    var n := |all|;
    forall k | 0 <= k < |places| ensures 0 <= places[k] <= n && kept[k] == (all + [next])[places[k]] {
      assert (all + [next])[places[k]] == all[places[k]];
    }
    forall i | 0 <= i <= n ensures i in places <==> keep((all + [next])[i]) {
      assert i < n ==> (all + [next])[i] == all[i];
    }
  }

  function Max(a: int, b: int): int {
    if a < b then b else a
  }

  function Min(a: int, b: int): int {
    if a < b then a else b
  }
}
