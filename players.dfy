/**
 * The player list: one name per input line, trimmed, blank lines skipped,
 * input order kept and duplicates kept.
 */
module Players {
  import opened Text

  /** The names a sequence of lines yields, one line at a time with the last line last. */
  function PlayerList(lines: seq<string>): seq<string>
    decreases |lines|
  {
    if lines == [] then []
    else
      var n := |lines| - 1;
      var name := Trim(lines[n]);
      PlayerList(lines[..n]) + (if name != "" then [name] else [])
  }

  /** `readPlayers`, after the file has been split into lines. */
  method ReadPlayers(lines: seq<string>) returns (players: seq<string>)
    ensures players == PlayerList(lines)
  {
    players := [];
    for k := 0 to |lines|
      invariant players == PlayerList(lines[..k])
    {
      assert lines[..k + 1][..k] == lines[..k];
      var name := Trim(lines[k]);
      if name != "" {
        players := players + [name];
      }
    }
    assert lines[..|lines|] == lines;
  }

  /** The names of two consecutive blocks of lines are the names of each block, in order. */
  lemma {:induction false} PlayerListAppend(a: seq<string>, b: seq<string>)
    ensures PlayerList(a + b) == PlayerList(a) + PlayerList(b)
    decreases |b|
  {
    if b == [] {
      assert a + b == a;
    } else {
      var n := |b| - 1;
      assert (a + b)[..|a + b| - 1] == a + b[..n];
      PlayerListAppend(a, b[..n]);
    }
  }

  /** Every name is non-empty and already trimmed. */
  lemma {:induction false} PlayerListClean(lines: seq<string>)
    ensures forall p :: p in PlayerList(lines) ==> p != "" && Trim(p) == p
    decreases |lines|
  {
    if lines != [] {
      var n := |lines| - 1;
      PlayerListClean(lines[..n]);
      TrimIdempotent(lines[n]);
    }
  }

  /** A line that yields no name: empty once trimmed, that is, blank (see `Trim`). */
  predicate Skipped(line: string) {
    Trim(line) == ""
  }

  /** The list is empty exactly when every line is skipped. */
  lemma PlayerListEmpty(lines: seq<string>)
    ensures PlayerList(lines) == [] <==> forall i :: 0 <= i < |lines| ==> Skipped(lines[i])
  {
    if PlayerList(lines) == [] {
      EmptyAllSkipped(lines);
    }
    if forall i :: 0 <= i < |lines| ==> Skipped(lines[i]) {
      AllSkippedEmpty(lines);
    }
  }

  lemma {:induction false} EmptyAllSkipped(lines: seq<string>)
    requires PlayerList(lines) == []
    ensures forall i :: 0 <= i < |lines| ==> Skipped(lines[i])
    decreases |lines|
  {
    if lines != [] {
      var n := |lines| - 1;
      var prefix := lines[..n];
      EmptyStep(lines);
      EmptyAllSkipped(prefix);
      forall i | 0 <= i < |lines| ensures Skipped(lines[i]) {
        if i < n {
          assert prefix[i] == lines[i];
        }
      }
    }
  }

  lemma {:induction false} AllSkippedEmpty(lines: seq<string>)
    requires forall i :: 0 <= i < |lines| ==> Skipped(lines[i])
    ensures PlayerList(lines) == []
    decreases |lines|
  {
    if lines != [] {
      var n := |lines| - 1;
      var prefix := lines[..n];
      forall i | 0 <= i < n ensures Skipped(prefix[i]) {
        assert prefix[i] == lines[i];
      }
      AllSkippedEmpty(prefix);
      assert Skipped(lines[n]);
      EmptyStep(lines);
    }
  }

  lemma EmptyStep(lines: seq<string>)
    requires lines != []
    ensures PlayerList(lines) == [] <==> PlayerList(lines[..|lines| - 1]) == [] && Trim(lines[|lines| - 1]) == ""
  {
  }

  /** How many lines trim to `x`. */
  function LinesNamed(lines: seq<string>, x: string): nat
    decreases |lines|
  {
    if lines == [] then 0
    else
      var n := |lines| - 1;
      LinesNamed(lines[..n], x) + (if Trim(lines[n]) == x then 1 else 0)
  }

  /** No deduplication: a name appears once for every line that trims to it. */
  lemma {:induction false} PlayerListKeepsDuplicates(lines: seq<string>, x: string)
    requires x != ""
    ensures multiset(PlayerList(lines))[x] == LinesNamed(lines, x)
    decreases |lines|
  {
    if lines != [] {
      var n := |lines| - 1;
      PlayerListKeepsDuplicates(lines[..n], x);
    }
  }

  /** Two names with a blank line between them give exactly those two names. */
  lemma BlankLineSkipped(first: string, second: string)
    requires Trim(first) == first != "" && Trim(second) == second != ""
    ensures PlayerList([first, "", second]) == [first, second]
  {
    PlayerListSnoc([], first);
    assert [] + [first] == [first];
    var blank: string := "";
    assert Trim(blank) == "";
    PlayerListSnoc([first], blank);
    PlayerListSnoc([first] + [blank], second);
    assert [first] + [blank] + [second] == [first, "", second];
  }

  lemma PlayerListSnoc(lines: seq<string>, line: string)
    ensures PlayerList(lines + [line]) == PlayerList(lines) + (if Trim(line) != "" then [Trim(line)] else [])
  {
    assert (lines + [line])[..|lines|] == lines;
  }
}
