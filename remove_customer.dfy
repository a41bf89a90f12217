/**
 * Removing a house or a building: the naming conventions per entity type,
 * finding and removing the entity's credential lines (and the comment line
 * just above each) in the `.env` file, and recording a soft offboarding in
 * the list of pending InfluxDB purges.
 */
module CustomerRemoval {
  import opened Common

  const BuildingsDir := "buildings"
  const ProfilesDir := "profiles"
  const DefaultGraceDays := 30
  const SecondsPerDay := 86400

  // ---------------------------------------------------------------------
  // Naming conventions per entity type
  // ---------------------------------------------------------------------

  /** The configuration directory: "buildings" for a building, "profiles" for any other type. */
  function ConfigDirForType(entityType: string): (dir: string)
    ensures dir == BuildingsDir <==> entityType == "building"
    ensures entityType != "building" ==> dir == ProfilesDir
  {
    assert BuildingsDir != ProfilesDir by { assert BuildingsDir[0] != ProfilesDir[0]; }
    if entityType == "building" then BuildingsDir else ProfilesDir
  }

  /** The credential prefix: BUILDING for a building, HOUSE for any other type. */
  function EnvPrefixForType(entityType: string): (prefix: string)
    ensures prefix == "BUILDING" <==> entityType == "building"
    ensures entityType != "building" ==> prefix == "HOUSE"
  {
    assert "BUILDING" != "HOUSE" by { assert "BUILDING"[0] != "HOUSE"[0]; }
    if entityType == "building" then "BUILDING" else "HOUSE"
  }

  /** The InfluxDB tag: building_id for a building, house_id for any other type. */
  function InfluxTagForType(entityType: string): (tag: string)
    ensures tag == "building_id" <==> entityType == "building"
    ensures entityType != "building" ==> tag == "house_id"
  {
    assert "building_id" != "house_id" by { assert "building_id"[0] != "house_id"[0]; }
    if entityType == "building" then "building_id" else "house_id"
  }

  /** The start of every credential key of the entity, e.g. `HOUSE_<id>_`. */
  function EnvPrefix(entityId: string, entityType: string): (p: string)
    ensures |p| > 0 && p[0] != '#'
  {
    EnvPrefixForType(entityType) + "_" + entityId + "_"
  }

  // ---------------------------------------------------------------------
  // Lines of the .env file
  // ---------------------------------------------------------------------

  predicate StartsWith(s: string, prefix: string)
  {
    |prefix| <= |s| && s[..|prefix|] == prefix
  }

  predicate IsCredential(line: string, prefix: string)
  {
    StartsWith(Strip(line), prefix)
  }

  predicate IsComment(line: string)
  {
    StartsWith(Strip(line), "#")
  }

  /** Which lines are credential lines of the entity. */
  function CredentialFlags(lines: seq<string>, prefix: string): (f: seq<bool>)
    ensures |f| == |lines| && forall i :: 0 <= i < |lines| ==> f[i] == IsCredential(lines[i], prefix)
  {
    seq(|lines|, i requires 0 <= i < |lines| => IsCredential(lines[i], prefix))
  }

  /** Which lines are comments. */
  function CommentFlags(lines: seq<string>): (f: seq<bool>)
    ensures |f| == |lines| && forall i :: 0 <= i < |lines| ==> f[i] == IsComment(lines[i])
  {
    seq(|lines|, i requires 0 <= i < |lines| => IsComment(lines[i]))
  }

  /**
   * Line `j` is matched once the first `n` lines have been scanned: it is a
   * credential line, or a comment above a scanned credential line.
   */
  predicate ListedAt(cred: seq<bool>, comment: seq<bool>, n: nat, j: int)
    requires 0 <= j < n <= |cred| == |comment|
  {
    cred[j] || (j + 1 < n && cred[j + 1] && comment[j])
  }

  /** The line numbers matched after scanning the first `n` lines. */
  function ListedBelow(cred: seq<bool>, comment: seq<bool>, n: nat): set<int>
    requires n <= |cred| == |comment|
  {
    set j | 0 <= j < n && ListedAt(cred, comment, n, j)
  }

  /**
   * The numbers of the lines the removal deletes: every credential line and
   * every comment line directly above one.
   */
  function RemovalIndices(lines: seq<string>, prefix: string): set<int>
  {
    ListedBelow(CredentialFlags(lines, prefix), CommentFlags(lines), |lines|)
  }

  /** The line numbers scanning line `i` adds. */
  function NewlyListed(cred: seq<bool>, comment: seq<bool>, i: nat): set<int>
    requires i < |cred| == |comment|
  {
    if cred[i] then {i} + (if i > 0 && comment[i - 1] then {i - 1} else {}) else {}
  }

  lemma ListedStep(cred: seq<bool>, comment: seq<bool>, i: nat)
    requires i < |cred| == |comment|
    ensures ListedBelow(cred, comment, i + 1) == ListedBelow(cred, comment, i) + NewlyListed(cred, comment, i)
  {
    var a := ListedBelow(cred, comment, i + 1);
    var b := ListedBelow(cred, comment, i) + NewlyListed(cred, comment, i);
    forall j | j in a ensures j in b {
      if j + 1 < i {
        assert ListedAt(cred, comment, i, j);
      }
    }
    forall j | j in b ensures j in a {
      if j in ListedBelow(cred, comment, i) {
        assert ListedAt(cred, comment, i + 1, j);
      }
    }
  }

  /** The lines not in `removed`, in file order. */
  function KeepLines(lines: seq<string>, removed: set<int>): seq<string>
  {
    if lines == [] then []
    else
      var n := |lines| - 1;
      KeepLines(lines[..n], removed) + (if n in removed then [] else [lines[n]])
  }

  function Below(s: set<int>, n: int): set<int>
  {
    set i | i in s && 0 <= i < n
  }

  /** Filtering keeps exactly the lines whose numbers are not removed, so the counts add up. */
  lemma {:induction false} KeepLinesCount(lines: seq<string>, removed: set<int>)
    ensures |KeepLines(lines, removed)| + |Below(removed, |lines|)| == |lines|
    ensures forall l :: l in KeepLines(lines, removed) ==>
      exists i :: 0 <= i < |lines| && i !in removed && lines[i] == l
  {
    if lines != [] {
      var n := |lines| - 1;
      KeepLinesCount(lines[..n], removed);
      if n in removed {
        assert Below(removed, n + 1) == Below(removed, n) + {n};
      } else {
        assert Below(removed, n + 1) == Below(removed, n);
      }
      forall l | l in KeepLines(lines, removed)
        ensures exists i :: 0 <= i < |lines| && i !in removed && lines[i] == l
      {
        if l in KeepLines(lines[..n], removed) {
          var i :| 0 <= i < n && i !in removed && lines[..n][i] == l;
          assert lines[i] == l;
        } else {
          assert lines[n] == l && n !in removed;
        }
      }
    }
  }

  /**
   * After removal no credential line of the entity is left, and the kept
   * lines together with the removed ones account for the whole file.
   */
  lemma RemovalMeaning(lines: seq<string>, prefix: string)
    ensures forall l :: l in KeepLines(lines, RemovalIndices(lines, prefix)) ==> !IsCredential(l, prefix)
    ensures |KeepLines(lines, RemovalIndices(lines, prefix))| + |RemovalIndices(lines, prefix)| == |lines|
  {
    var removed := RemovalIndices(lines, prefix);
    KeepLinesCount(lines, removed);
    assert Below(removed, |lines|) == removed;
  }

  /**
   * `remove_env_lines` on the file's lines (`None` when there is no .env):
   * the lines left and the number removed.  Nothing is rewritten when
   * nothing matches.
   */
  method RemoveEnvLines(file: Option<seq<string>>, entityId: string, entityType: string)
    returns (after: Option<seq<string>>, count: nat)
    ensures file.None? ==> after.None? && count == 0
    ensures file.Some? ==>
      var removed := RemovalIndices(file.value, EnvPrefix(entityId, entityType));
      && count == |removed|
      && after == Some(KeepLines(file.value, removed))
      && (count == 0 ==> after == file)
  {
    if file.None? {
      return None, 0;
    }
    var lines := file.value;
    var removed := MatchedLines(lines, EnvPrefix(entityId, entityType));
    if removed == {} {
      KeepNothingRemoved(lines, removed);
      return file, 0;
    }
    var kept := KeepUnmarked(lines, removed);
    return Some(kept), |removed|;
  }

  /** The first loop of `remove_env_lines`: the numbers of the lines to remove. */
  method MatchedLines(lines: seq<string>, prefix: string) returns (removed: set<int>)
    ensures removed == RemovalIndices(lines, prefix)
  {
    ghost var cred := CredentialFlags(lines, prefix);
    ghost var comment := CommentFlags(lines);
    removed := {};
    for i := 0 to |lines|
      invariant removed == ListedBelow(cred, comment, i)
    {
      ListedStep(cred, comment, i);
      if IsCredential(lines[i], prefix) {
        removed := removed + {i};
        if i > 0 && IsComment(lines[i - 1]) {
          removed := removed + {i - 1};
        }
      }
    }
  }

  /** The second loop of `remove_env_lines`: the lines written back. */
  method KeepUnmarked(lines: seq<string>, removed: set<int>) returns (kept: seq<string>)
    ensures kept == KeepLines(lines, removed)
  {
    kept := [];
    for i := 0 to |lines|
      invariant kept == KeepLines(lines[..i], removed)
    {
      assert lines[..i + 1][..i] == lines[..i];
      if i !in removed {
        kept := kept + [lines[i]];
      }
    }
    assert lines[..|lines|] == lines;
  }

  lemma {:induction false} KeepNothingRemoved(lines: seq<string>, removed: set<int>)
    requires removed == {}
    ensures KeepLines(lines, removed) == lines
  {
    if lines != [] {
      KeepNothingRemoved(lines[..|lines| - 1], removed);
    }
  }

  // ---------------------------------------------------------------------
  // Listing the lines that would be removed
  // ---------------------------------------------------------------------

  /**
   * The entries `find_env_lines` reports for the first `n` lines: for each
   * credential line, the comment directly above it (right-stripped) and
   * then the line itself (stripped), with their line numbers.
   */
  function FoundLines(lines: seq<string>, prefix: string, n: nat): seq<(int, string)>
    requires n <= |lines|
  {
    if n == 0 then [] else FoundLines(lines, prefix, n - 1) + FoundAt(lines, prefix, n - 1)
  }

  /** What line `i` adds to the listing. */
  function FoundAt(lines: seq<string>, prefix: string, i: nat): seq<(int, string)>
    requires i < |lines|
  {
    if IsCredential(lines[i], prefix) then
      (if i > 0 && IsComment(lines[i - 1]) then [(i - 1, RStrip(lines[i - 1]))] else []) + [(i, Strip(lines[i]))]
    else []
  }

  function IndicesOf(found: seq<(int, string)>): set<int>
  {
    set k | 0 <= k < |found| :: found[k].0
  }

  predicate Increasing(found: seq<(int, string)>)
  {
    forall a, b :: 0 <= a < b < |found| ==> found[a].0 < found[b].0
  }

  /** A comment line is never a credential line: credential prefixes do not start with `#`. */
  lemma CommentIsNotCredential(line: string, prefix: string)
    requires |prefix| > 0 && prefix[0] != '#' && IsComment(line)
    ensures !IsCredential(line, prefix)
  {
    var t := Strip(line);
    assert t[0] == t[..1][0] == '#';
    if |prefix| <= |t| {
      assert t[..|prefix|][0] != prefix[0];
    }
  }

  /** The entries one line adds: increasing, numbered `i - 1` or `i`, exactly the numbers it marks. */
  lemma FoundAtShape(lines: seq<string>, prefix: string, i: nat)
    requires i < |lines|
    ensures IndicesOf(FoundAt(lines, prefix, i)) == NewlyListed(CredentialFlags(lines, prefix), CommentFlags(lines), i)
    ensures Increasing(FoundAt(lines, prefix, i))
    ensures forall k :: 0 <= k < |FoundAt(lines, prefix, i)| ==>
      FoundAt(lines, prefix, i)[k].0 == i || (k == 0 && FoundAt(lines, prefix, i)[k].0 == i - 1 && i > 0 && IsComment(lines[i - 1]))
    ensures IsCredential(lines[i], prefix) ==> |FoundAt(lines, prefix, i)| > 0
  {
    var extra := FoundAt(lines, prefix, i);
    if IsCredential(lines[i], prefix) {
      if i > 0 && IsComment(lines[i - 1]) {
        assert extra[0].0 == i - 1 && extra[1].0 == i;
        assert IndicesOf(extra) == {i - 1, i};
      } else {
        assert extra[0].0 == i;
        assert IndicesOf(extra) == {i};
      }
    }
  }

  lemma {:induction false} FoundLinesShape(lines: seq<string>, prefix: string, n: nat)
    requires n <= |lines| && |prefix| > 0 && prefix[0] != '#'
    ensures IndicesOf(FoundLines(lines, prefix, n)) == ListedBelow(CredentialFlags(lines, prefix), CommentFlags(lines), n)
    ensures Increasing(FoundLines(lines, prefix, n))
    ensures forall k :: 0 <= k < |FoundLines(lines, prefix, n)| ==> FoundLines(lines, prefix, n)[k].0 < n
  {
    if n > 0 {
      var i := n - 1;
      var before := FoundLines(lines, prefix, i);
      var extra := FoundAt(lines, prefix, i);
      FoundLinesShape(lines, prefix, i);
      FoundAtShape(lines, prefix, i);
      ListedStep(CredentialFlags(lines, prefix), CommentFlags(lines), i);
      IndicesOfConcat(before, extra);
      if i > 0 && IsComment(lines[i - 1]) {
        // The comment line was not listed already, so every earlier entry lies below it.
        CommentIsNotCredential(lines[i - 1], prefix);
        assert i - 1 !in ListedBelow(CredentialFlags(lines, prefix), CommentFlags(lines), i);
        forall k | 0 <= k < |before| ensures before[k].0 < i - 1 {
          assert before[k].0 in IndicesOf(before);
        }
      }
      IncreasingJoin(before, extra);
      assert FoundLines(lines, prefix, n) == before + extra;
    }
  }

  lemma IncreasingJoin(a: seq<(int, string)>, b: seq<(int, string)>)
    requires Increasing(a) && Increasing(b)
    requires forall x, y :: 0 <= x < |a| && 0 <= y < |b| ==> a[x].0 < b[y].0
    ensures Increasing(a + b)
  {
  }

  lemma IndicesOfConcat(a: seq<(int, string)>, b: seq<(int, string)>)
    ensures IndicesOf(a + b) == IndicesOf(a) + IndicesOf(b)
  {
    var ab := a + b;
    forall x | x in IndicesOf(ab) ensures x in IndicesOf(a) + IndicesOf(b) {
      var k :| 0 <= k < |ab| && ab[k].0 == x;
      if k < |a| { assert a[k].0 == x; } else { assert b[k - |a|].0 == x; }
    }
    forall x | x in IndicesOf(a) + IndicesOf(b) ensures x in IndicesOf(ab) {
      if x in IndicesOf(a) {
        var k :| 0 <= k < |a| && a[k].0 == x;
        assert ab[k].0 == x;
      } else {
        var k :| 0 <= k < |b| && b[k].0 == x;
        assert ab[|a| + k].0 == x;
      }
    }
  }

  lemma {:induction false} IncreasingCount(found: seq<(int, string)>)
    requires Increasing(found)
    ensures |IndicesOf(found)| == |found|
  {
    if found != [] {
      var n := |found| - 1;
      IncreasingCount(found[..n]);
      assert IndicesOf(found) == IndicesOf(found[..n]) + {found[n].0};
      assert found[n].0 !in IndicesOf(found[..n]);
    }
  }

  /**
   * `find_env_lines` lists exactly the lines `remove_env_lines` deletes,
   * each once and in file order, so the listing is as long as the count
   * the removal returns.
   */
  lemma FindMatchesRemoval(lines: seq<string>, entityId: string, entityType: string)
    ensures var prefix := EnvPrefix(entityId, entityType);
      && IndicesOf(FoundLines(lines, prefix, |lines|)) == RemovalIndices(lines, prefix)
      && Increasing(FoundLines(lines, prefix, |lines|))
      && |FoundLines(lines, prefix, |lines|)| == |RemovalIndices(lines, prefix)|
  {
    var prefix := EnvPrefix(entityId, entityType);
    FoundLinesShape(lines, prefix, |lines|);
    IncreasingCount(FoundLines(lines, prefix, |lines|));
  }

  /** `find_env_lines` on the file's lines (`None` when there is no .env). */
  method FindEnvLines(file: Option<seq<string>>, entityId: string, entityType: string)
    returns (found: seq<(int, string)>)
    ensures file.None? ==> found == []
    ensures file.Some? ==> found == FoundLines(file.value, EnvPrefix(entityId, entityType), |file.value|)
  {
    if file.None? {
      return [];
    }
    var lines := file.value;
    var prefix := EnvPrefix(entityId, entityType);
    found := [];
    for i := 0 to |lines|
      invariant found == FoundLines(lines, prefix, i)
    {
      var stripped := Strip(lines[i]);
      if StartsWith(stripped, prefix) {
        var entries := [(i, stripped)];
        if i > 0 && IsComment(lines[i - 1]) {
          entries := [(i - 1, RStrip(lines[i - 1]))] + entries;
        }
        found := found + entries;
      }
    }
  }

  /**
   * The credential prefix is a plain string prefix: removing an entity
   * also removes the lines of any entity whose id extends its id by an
   * underscore and more.
   */
  lemma LongerIdsShareThePrefix(entityId: string, more: string, entityType: string, line: string)
    requires IsCredential(line, EnvPrefix(entityId + "_" + more, entityType))
    ensures IsCredential(line, EnvPrefix(entityId, entityType))
  {
    var short := EnvPrefix(entityId, entityType);
    var long := EnvPrefix(entityId + "_" + more, entityType);
    assert long[..|short|] == short;
  }

  // ---------------------------------------------------------------------
  // Soft offboarding
  // ---------------------------------------------------------------------

  datatype OffboardEntry = OffboardEntry(
    id: string, entityType: string, friendlyName: string, offboardedAt: int, purgeAfter: int, influxTag: string)

  /** The offboarding record; an unreadable file reads as empty lists. */
  datatype Offboarded = Offboarded(pendingPurge: seq<OffboardEntry>, purged: seq<OffboardEntry>)

  predicate Pending(data: Offboarded, entityId: string)
  {
    exists k :: 0 <= k < |data.pendingPurge| && data.pendingPurge[k].id == entityId
  }

  ghost predicate DistinctPending(data: Offboarded)
  {
    forall a, b :: 0 <= a < b < |data.pendingPurge| ==> data.pendingPurge[a].id != data.pendingPurge[b].id
  }

  /**
   * `add_to_offboarded` at time `now` (seconds): an entity already pending
   * is left as it is; otherwise an entry whose purge time lies the grace
   * period after now is appended.
   */
  function AddToOffboarded(data: Offboarded, entityId: string, entityType: string, friendlyName: string,
                           graceDays: int, now: int): (r: Offboarded)
    ensures Pending(r, entityId)
    ensures r.purged == data.purged
    ensures Pending(data, entityId) ==> r == data
    ensures !Pending(data, entityId) ==>
      && |r.pendingPurge| == |data.pendingPurge| + 1
      && r.pendingPurge[..|data.pendingPurge|] == data.pendingPurge
      && var e := r.pendingPurge[|data.pendingPurge|];
         e.id == entityId && e.purgeAfter == now + graceDays * SecondsPerDay && e.offboardedAt == now
         && e.influxTag == InfluxTagForType(entityType)
  {
    if Pending(data, entityId) then data
    else
      var entry := OffboardEntry(entityId, entityType, friendlyName, now, now + graceDays * SecondsPerDay,
                                 InfluxTagForType(entityType));
      var r := data.(pendingPurge := data.pendingPurge + [entry]);
      assert r.pendingPurge[|data.pendingPurge|].id == entityId;
      r
  }

  /** Offboarding never creates a second pending entry for the same id. */
  lemma OffboardingKeepsPendingDistinct(data: Offboarded, entityId: string, entityType: string,
                                        friendlyName: string, graceDays: int, now: int)
    requires DistinctPending(data)
    ensures DistinctPending(AddToOffboarded(data, entityId, entityType, friendlyName, graceDays, now))
  {
    var r := AddToOffboarded(data, entityId, entityType, friendlyName, graceDays, now);
    if !Pending(data, entityId) {
      var n := |data.pendingPurge|;
      forall a, b | 0 <= a < b < |r.pendingPurge| ensures r.pendingPurge[a].id != r.pendingPurge[b].id {
        if b == n {
          assert r.pendingPurge[a] == data.pendingPurge[a];
        } else {
          assert r.pendingPurge[a] == data.pendingPurge[a] && r.pendingPurge[b] == data.pendingPurge[b];
        }
      }
    }
  }

  /** Offboarding the same entity again, even later, changes nothing. */
  lemma OffboardingIsIdempotent(data: Offboarded, entityId: string, entityType: string, friendlyName: string,
                                graceDays: int, now: int, later: int)
    ensures var once := AddToOffboarded(data, entityId, entityType, friendlyName, graceDays, now);
      AddToOffboarded(once, entityId, entityType, friendlyName, graceDays, later) == once
  {
  }
}
