/** Finding, reading and removing a managed block in any text. */
module AwgMarkers {
  import opened Base
  import opened Text
  import opened Lines
  import opened AwgText
  import G = AwgGrammar

  // `_remove_managed_block`, `_managed_block_lines` and `find_managed_peer_public_key` (`adapters/awg_config.py`) for
  // every text, well formed or not.

  /** The line opens the key's block. */
  predicate Opens(line: string, keyId: nat) {
    "# vpn-bot peer start key_id=" + (Dec(keyId) + " ") <= Strip(line)
  }

  predicate Closes(line: string, keyId: nat) {
    Strip(line) == "# vpn-bot peer end key_id=" + Dec(keyId)
  }

  predicate FirstOpens(lines: seq<string>, keyId: nat, i: nat) {
    i < |lines| && Opens(lines[i], keyId) && forall m :: 0 <= m < i ==> !Opens(lines[m], keyId)
  }

  /** The first closing line behind line `i`. */
  predicate FirstCloses(lines: seq<string>, keyId: nat, i: nat, j: nat) {
    i < j < |lines| && Closes(lines[j], keyId) && forall m :: i < m < j ==> !Closes(lines[m], keyId)
  }

  lemma {:induction false} StartIs(lines: seq<string>, keyId: nat)
    ensures var n := FirstStart(lines, keyId);
            && (n < |lines| ==> Opens(lines[n], keyId))
            && forall m :: 0 <= m < n ==> !Opens(lines[m], keyId)
  {
    hide Strip;
    if lines != [] {
      StartIs(lines[1..], keyId);
      assert forall m :: 0 < m < |lines| ==> lines[m] == lines[1..][m - 1];
    }
  }

  lemma {:induction false} EndIs(lines: seq<string>, keyId: nat)
    ensures var n := FirstEnd(lines, keyId);
            && (n < |lines| ==> Closes(lines[n], keyId))
            && forall m :: 0 <= m < n ==> !Closes(lines[m], keyId)
  {
    hide Strip;
    if lines != [] {
      EndIs(lines[1..], keyId);
      assert forall m :: 0 < m < |lines| ==> lines[m] == lines[1..][m - 1];
    }
  }

  /** The places the code finds are the first opening line and the first closing one behind it. */
  lemma PlacesAre(lines: seq<string>, keyId: nat)
    ensures var start := FirstStart(lines, keyId);
            && (start == |lines| <==> forall m :: 0 <= m < |lines| ==> !Opens(lines[m], keyId))
            && (forall i: nat :: FirstOpens(lines, keyId, i) <==> i == start < |lines|)
            && (start < |lines| ==>
                  var end := start + 1 + FirstEnd(lines[start + 1..], keyId);
                  && (end == |lines| <==> forall m :: start < m < |lines| ==> !Closes(lines[m], keyId))
                  && (forall j: nat :: FirstCloses(lines, keyId, start, j) <==> j == end < |lines|))
  {
    hide Opens, Closes, FirstCloses, FirstEnd;
    StartIs(lines, keyId);
    if FirstStart(lines, keyId) < |lines| {
      EndPlace(lines, keyId, FirstStart(lines, keyId));
    }
  }

  lemma EndPlace(lines: seq<string>, keyId: nat, start: nat)
    requires start < |lines|
    ensures var end := start + 1 + FirstEnd(lines[start + 1..], keyId);
            && (end == |lines| <==> forall m :: start < m < |lines| ==> !Closes(lines[m], keyId))
            && (forall j: nat :: FirstCloses(lines, keyId, start, j) <==> j == end < |lines|)
  {
    hide Closes, FirstEnd;
    EndIs(lines[start + 1..], keyId);
    assert forall m :: start < m < |lines| ==> lines[m] == lines[start + 1..][m - start - 1];
  }

  /** In every text: without an opening line there is nothing to remove, one that is never closed is refused, and
      otherwise the lines from the first opening to the first closing one behind it are what is found and what goes. */
  lemma RemovalIs(text: string, keyId: nat)
    ensures var lines := SplitLines(text);
            && ((forall m :: 0 <= m < |lines| ==> !Opens(lines[m], keyId)) ==>
                  BlockRemoved(text, keyId) == Ok(text) && BlockFound(text, keyId) == None)
            && (forall i: nat ::
                  FirstOpens(lines, keyId, i) && (forall m :: i < m < |lines| ==> !Closes(lines[m], keyId)) ==>
                  BlockRemoved(text, keyId) == Err(NoEndMarker(keyId)) && BlockFound(text, keyId) == None)
            && (forall i: nat, j: nat :: FirstOpens(lines, keyId, i) && FirstCloses(lines, keyId, i, j) ==>
                  && BlockRemoved(text, keyId) == Ok(RStrip(Join(lines[..i] + lines[j + 1..])) + "\n")
                  && BlockFound(text, keyId) == Some(lines[i..j + 1]))
  {
    hide Opens, Closes, Strip, SplitLines, RStrip, Join, FirstStart, FirstEnd, FirstOpens, FirstCloses;
    PlacesAre(SplitLines(text), keyId);
  }

  // ---------------------------------------------------------------- the key of a block

  /** The line gives a public key that is not empty. */
  ghost predicate GivesKey(line: string, value: string) {
    && value != "" && !G.Note(Strip(line))
    && exists k, v :: Strip(line) == k + ("=" + v) && '=' !in k && Strip(k) == "PublicKey" && Strip(v) == value
  }

  lemma GivesIs(line: string, value: string)
    ensures GivesKey(line, value) <==>
            !G.Note(Strip(line)) && value != "" && G.ReadOff(Strip(line), "PublicKey", value)
  {
    hide Strip, IndexOf;
    var s := Strip(line);
    if GivesKey(line, value) {
      var k, v :| s == k + ("=" + v) && '=' !in k && Strip(k) == "PublicKey" && Strip(v) == value;
      G.FirstSign(s, k, v);
    }
    if G.ReadOff(s, "PublicKey", value) {
      G.BeforeSign(s);
      var at := IndexOf(s, '=');
      assert s == s[..at] + ("=" + s[at + 1..]);
    }
  }

  /** The first line of the block that gives a key gives this one. */
  ghost predicate FirstKey(block: seq<string>, value: string) {
    exists i :: 0 <= i < |block| && GivesKey(block[i], value) && forall j :: 0 <= j < i ==> Keyless(block[j])
  }

  ghost predicate Keyless(line: string) {
    forall value :: !GivesKey(line, value)
  }

  lemma FirstKeyStep(block: seq<string>, value: string)
    requires block != []
    ensures FirstKey(block, value) <==>
            GivesKey(block[0], value) || (Keyless(block[0]) && FirstKey(block[1..], value))
  {
    hide GivesKey, Keyless;
    var rest := block[1..];
    assert forall m :: 0 <= m < |rest| ==> block[m + 1] == rest[m];
    if i :| 0 <= i < |block| && GivesKey(block[i], value) && forall j :: 0 <= j < i ==> Keyless(block[j]) {
      if i > 0 {
        assert GivesKey(rest[i - 1], value);
        assert forall j :: 0 <= j < i - 1 ==> Keyless(rest[j]);
      }
    }
    if Keyless(block[0]) && FirstKey(rest, value) {
      var i :| 0 <= i < |rest| && GivesKey(rest[i], value) && forall j :: 0 <= j < i ==> Keyless(rest[j]);
      assert GivesKey(block[i + 1], value);
      assert forall j :: 0 <= j < i + 1 ==> Keyless(block[j]);
    }
  }

  /** The public key of a block is that of its first line that gives one. */
  lemma {:induction false} KeyIs(block: seq<string>, value: string)
    ensures KeyOfBlock(block) == Some(value) <==> FirstKey(block, value)
  {
    hide Strip, IndexOf, GivesKey, FirstKey;
    if block == [] {
      NoKeyInNothing(value);
    } else {
      KeyIs(block[1..], value);
      FirstKeyStep(block, value);
      forall other ensures GivesKey(block[0], other) <==>
                           !G.Note(Strip(block[0])) && other != "" && G.ReadOff(Strip(block[0]), "PublicKey", other)
      {
        GivesIs(block[0], other);
      }
      var line := Strip(block[0]);
      if '=' in line && GivesKey(block[0], Strip(line[IndexOf(line, '=') + 1..])) {
        assert !Keyless(block[0]);
      }
    }
  }

  lemma NoKeyInNothing(value: string)
    ensures !FirstKey([], value)
  {
  }

  // ---------------------------------------------------------------- the text of a block

  lemma StartLineIs(e: Entry)
    ensures StartLine(e) == "# vpn-bot peer start key_id=" + (Dec(e.keyId) + (" owner=" + (Dec(e.owner)
                            + if e.labelText == "" then "" else " label=" + e.labelText)))
  {
    hide Dec;
    var owner, more := Dec(e.owner), if e.labelText == "" then "" else " label=" + e.labelText;
    assert OwnerPart(e) == owner + more;
    assert " " + ("owner=" + (owner + more)) == " owner=" + (owner + more);
  }

  lemma OptionIs(key: string, value: string)
    ensures OptionLine(key, value) == (key + " = ") + value
  {
  }

  /** The lines that are written for a peer, and the text around them. */
  lemma BlockIs(text: string, e: Entry)
    ensures BlockLines(e) == [StartLine(e), "[Peer]", "PublicKey = " + e.publicKey]
                             + (if e.preshared == "" then [] else ["PresharedKey = " + e.preshared])
                             + ["AllowedIPs = " + (e.ip + "/32"), "# vpn-bot peer end key_id=" + Dec(e.keyId)]
    ensures Appended(text, e) == RStrip(text) + ("\n\n" + (Join(BlockLines(e)) + "\n"))
  {
    hide Dec, StartLine, RStrip, Join;
    OptionIs("PublicKey", e.publicKey);
    OptionIs("PresharedKey", e.preshared);
    OptionIs("AllowedIPs", e.ip + "/32");
    assert "PublicKey" + " = " == "PublicKey = " && "PresharedKey" + " = " == "PresharedKey = ";
    assert "AllowedIPs" + " = " == "AllowedIPs = ";
    assert "\n" + ("\n" + PeerBlock(e)) == "\n\n" + PeerBlock(e);
  }
}
