// Installing a campaign: the staged authorization is narrowed before the server ever sees
// it, and the server then never exceeds what was installed.
module RunnerInstall {
  import opened Types
  import opened Chars
  import opened RunnerAuthorization
  import opened RunnerState
  import opened RunnerServer

  datatype InstallMode = WritablePersistent | ExternallyManagedPersistent | Transient

  datatype BootEntry = BootEntry(id: string, kernelImage: Option<string>, version: Option<string>)

  // What the boot adapter reports; any of the three queries may fail.
  datatype Discovery = Discovery(
    entries: Option<seq<BootEntry>>, defaultEntry: Option<Option<string>>, currentEntry: Option<Option<string>>)

  function Identity(e: BootEntry): string {
    match e
    case BootEntry(_, Some(image), _) => "image:" + image
    case BootEntry(_, None, Some(version)) => "version:" + version
    case BootEntry(id, None, None) => "id:" + id
  }

  // Entries are the same candidate when they boot the same image; without images, the same
  // version; without either, under the same id.
  lemma IdentityMeans(e: BootEntry, f: BootEntry)
    ensures Identity(e) == Identity(f) <==>
      && e.kernelImage == f.kernelImage
      && (e.kernelImage.None? ==> e.version == f.version)
      && (e.kernelImage.None? && e.version.None? ==> e.id == f.id)
  {
    SamePrefix("image:", e.kernelImage, f.kernelImage);
    SamePrefix("version:", e.version, f.version);
    SamePrefix("id:", Some(e.id), Some(f.id));
    assert Identity(e)[0] == 'i' || Identity(e)[0] == 'v';
    assert "image:"[1] == 'm' && "id:"[1] == 'd';
    assert e.kernelImage.Some? ==> Identity(e)[0] == 'i' && Identity(e)[1] == 'm';
    assert f.kernelImage.Some? ==> Identity(f)[0] == 'i' && Identity(f)[1] == 'm';
    assert e.kernelImage.None? && e.version.None? ==> Identity(e)[0] == 'i' && Identity(e)[1] == 'd';
    assert f.kernelImage.None? && f.version.None? ==> Identity(f)[0] == 'i' && Identity(f)[1] == 'd';
    assert e.kernelImage.None? && e.version.Some? ==> Identity(e)[0] == 'v';
    assert f.kernelImage.None? && f.version.Some? ==> Identity(f)[0] == 'v';
  }

  lemma SamePrefix(p: string, a: Option<string>, b: Option<string>)
    ensures a.Some? && b.Some? && p + a.value == p + b.value ==> a == b
  {
    if a.Some? && b.Some? && p + a.value == p + b.value {
      assert a.value == (p + a.value)[|p|..];
      assert b.value == (p + b.value)[|p|..];
    }
  }

  predicate HasIdentity(entries: seq<BootEntry>, identity: string) {
    exists i :: 0 <= i < |entries| && Identity(entries[i]) == identity
  }

  // The first entry of each identity, in order.
  function Distinct(entries: seq<BootEntry>): seq<BootEntry> {
    if entries == [] then []
    else
      var before, last := entries[..|entries| - 1], entries[|entries| - 1];
      if HasIdentity(before, Identity(last)) then Distinct(before) else Distinct(before) + [last]
  }

  lemma HasIdentitySnoc(entries: seq<BootEntry>, last: BootEntry, identity: string)
    ensures HasIdentity(entries + [last], identity) <==> HasIdentity(entries, identity) || Identity(last) == identity
  {
    hide Identity;
    var all := entries + [last];
    assert all[|entries|] == last;
    if HasIdentity(entries, identity) {
      var k :| 0 <= k < |entries| && Identity(entries[k]) == identity;
      assert all[k] == entries[k];
    }
  }

  // The candidates carry the identities of the entries, all of them and no others.
  lemma {:induction false} DistinctCovers(entries: seq<BootEntry>, identity: string)
    ensures HasIdentity(Distinct(entries), identity) <==> HasIdentity(entries, identity)
  {
    hide HasIdentity;
    if entries != [] {
      var before, last := entries[..|entries| - 1], entries[|entries| - 1];
      assert entries == before + [last];
      DistinctCovers(before, identity);
      HasIdentitySnoc(before, last, identity);
      HasIdentitySnoc(Distinct(before), last, identity);
    } else {
      assert Distinct(entries) == entries;
    }
  }

  // Each identity is carried once, and every candidate is one of the entries.
  lemma {:induction false} DistinctOnce(entries: seq<BootEntry>)
    ensures |Distinct(entries)| <= |entries|
    ensures forall i, j :: 0 <= i < j < |Distinct(entries)| ==>
              Identity(Distinct(entries)[i]) != Identity(Distinct(entries)[j])
    ensures forall e :: e in Distinct(entries) ==> e in entries
  {
    hide Identity;
    if entries != [] {
      var before, last := entries[..|entries| - 1], entries[|entries| - 1];
      assert entries == before + [last];
      DistinctOnce(before);
      DistinctCovers(before, Identity(last));
    }
  }

  // The first entry of each identity is kept, in the order of the entries: after any prefix
  // the candidates so far stay, and a new identity comes next.
  lemma {:induction false} DistinctFirst(entries: seq<BootEntry>, i: nat)
    requires i < |entries|
    ensures Distinct(entries[..i]) <= Distinct(entries)
    ensures !HasIdentity(entries[..i], Identity(entries[i])) ==>
      |Distinct(entries[..i])| < |Distinct(entries)| && Distinct(entries)[|Distinct(entries[..i])|] == entries[i]
  {
    hide HasIdentity, Identity;
    var n := |entries| - 1;
    assert entries[..n][..i] == entries[..i];
    if i < n {
      DistinctFirst(entries[..n], i);
    }
  }

  lemma NoIdentity()
    ensures forall s :: !HasIdentity([], s)
  {
  }

  method DistinctCandidates(entries: seq<BootEntry>) returns (candidates: seq<BootEntry>)
    ensures candidates == Distinct(entries)
  {
    hide HasIdentity, Identity;
    var seen: set<string> := {};
    NoIdentity();
    candidates := [];
    for i := 0 to |entries|
      invariant candidates == Distinct(entries[..i])
      invariant forall s :: s in seen <==> HasIdentity(entries[..i], s)
    {
      assert entries[..i + 1][..i] == entries[..i];
      var identity := Identity(entries[i]);
      assert entries[..i + 1] == entries[..i] + [entries[i]];
      forall s
        ensures HasIdentity(entries[..i + 1], s) <==> HasIdentity(entries[..i], s) || s == identity
      {
        HasIdentitySnoc(entries[..i], entries[i], s);
      }
      if identity !in seen {
        seen := seen + {identity};
        candidates := candidates + [entries[i]];
      }
    }
    assert entries[..|entries|] == entries;
  }

  // `saturating_add` and `min` on 32-bit counts.
  function Budget(candidates: nat, slack: u32, cap: u32): (b: u32)
    ensures b == cap || b == candidates + slack
    ensures b <= cap && b <= candidates + slack
  {
    var budget := if candidates + slack > U32_MAX then U32_MAX else candidates + slack;
    if budget < cap then budget else cap
  }

  // Without units that outlive a reboot no reboot is allowed.
  function PlanInstall(staged: Authorization, mode: InstallMode): Authorization {
    if mode.Transient? then staged.(maxReboots := 0) else staged
  }

  // Some candidate's id could be mistaken for an option or a path.
  predicate Unsafe(candidates: seq<BootEntry>) {
    exists i :: 0 <= i < |candidates| && !IsSafeBootEntryId(candidates[i].id)
  }

  // Freeze the boot candidates into the authorization; None when the install is refused.
  method ApplyBootDiscovery(a: Authorization, d: Discovery) returns (r: Option<Authorization>)
    ensures r.Some? ==>
      && ValidShape(r.value)
      && d.entries.Some? && d.defaultEntry.Some? && d.currentEntry.Some?
      && r.value.maxReboots == Budget(|Distinct(d.entries.value)|, a.rebootSlack, a.maxReboots)
      && r.value.originalBootEntry
           == (if d.defaultEntry.value.Some? then d.defaultEntry.value else d.currentEntry.value)
      && (r.value.originalBootEntry.Some? ==> r.value.originalBootEntry.value in r.value.allowedBootEntries)
      && (forall id :: id in r.value.allowedBootEntries <==>
            (exists i :: 0 <= i < |Distinct(d.entries.value)| && Distinct(d.entries.value)[i].id == id)
            || Some(id) == r.value.originalBootEntry)
      && r.value == a.(maxReboots := r.value.maxReboots, originalBootEntry := r.value.originalBootEntry,
                       allowedBootEntries := r.value.allowedBootEntries)
    ensures r.None? && d.entries.Some? && d.defaultEntry.Some? && d.currentEntry.Some? ==>
      !ValidShape(a) || Unsafe(Distinct(d.entries.value))
      || (d.defaultEntry.value.Some? && !IsSafeBootEntryId(d.defaultEntry.value.value))
      || (d.defaultEntry.value.None? && d.currentEntry.value.Some? && !IsSafeBootEntryId(d.currentEntry.value.value))
  {
    if d.entries.None? || d.defaultEntry.None? || d.currentEntry.None? {
      return None;
    }
    var candidates := DistinctCandidates(d.entries.value);
    var original := if d.defaultEntry.value.Some? then d.defaultEntry.value else d.currentEntry.value;
    var allowed := seq(|candidates|, i requires 0 <= i < |candidates| => candidates[i].id);
    assert forall i :: 0 <= i < |candidates| ==> allowed[i] == candidates[i].id;
    if original.Some? && original.value !in allowed {
      allowed := allowed + [original.value];
    }
    var updated := a.(maxReboots := Budget(|candidates|, a.rebootSlack, a.maxReboots),
                      originalBootEntry := original, allowedBootEntries := allowed);
    return if ValidShape(updated) then Some(updated) else None;
  }

  // The entry to return to, if it is known, may be selected.
  predicate OriginalAllowed(a: Authorization) {
    a.originalBootEntry.Some? ==> a.originalBootEntry.value in a.allowedBootEntries
  }

  // The installer as a whole: without a known bootloader the boot fields stay as staged.
  method Install(staged: Authorization, invokerUid: u32, mode: InstallMode, adapter: Option<Discovery>)
    returns (r: Option<Authorization>)
    ensures r.Some? ==>
      && ValidShape(r.value)
      && r.value.campaignId == staged.campaignId && r.value.ownerUid == staged.ownerUid == invokerUid
      && r.value.grants == staged.grants
      && r.value.maxReboots <= staged.maxReboots
      && (mode.Transient? ==> r.value.maxReboots == 0)
      && (adapter.Some? ==>
            && adapter.value.entries.Some?
            && r.value.maxReboots <= |Distinct(adapter.value.entries.value)| + staged.rebootSlack
            && (!mode.Transient? ==>
                  r.value.maxReboots == staged.maxReboots
                  || r.value.maxReboots == |Distinct(adapter.value.entries.value)| + staged.rebootSlack))
      && (OriginalAllowed(r.value) <==> adapter.Some? || OriginalAllowed(staged))
      && (adapter.None? ==> r.value.allowedBootEntries == staged.allowedBootEntries
                            && r.value.originalBootEntry == staged.originalBootEntry)
    ensures adapter.None? && r.Some? ==> r.value == staged.(maxReboots := if mode.Transient? then 0 else staged.maxReboots)
    ensures adapter.None? ==> (r.Some? <==> ValidShape(staged) && staged.ownerUid == invokerUid)
  {
    if !ValidShape(staged) || staged.ownerUid != invokerUid {
      return None;
    }
    var planned := PlanInstall(staged, mode);
    if adapter.None? {
      return Some(planned);
    }
    r := ApplyBootDiscovery(planned, adapter.value);
  }

  // From installer to server: whatever is requested and wherever power is lost, the machine
  // reboots at most as often as the staged cap and the found candidates allow, never after a
  // transient install, and only allowed, well-formed boot entries are ever selected.
  method InstalledCampaign(staged: Authorization, invokerUid: u32, mode: InstallMode, adapter: Option<Discovery>,
                           initial: Option<Content>, events: seq<Event>)
    returns (installed: Option<Authorization>, moments: seq<Moment>, effects: seq<Effect>)
    ensures Reboots(effects) <= staged.maxReboots
    ensures adapter.Some? && adapter.value.entries.Some? ==>
      Reboots(effects) <= |Distinct(adapter.value.entries.value)| + staged.rebootSlack
    ensures mode.Transient? ==> forall i :: 0 <= i < |effects| ==> !effects[i].RebootCall?
    ensures forall i :: 0 <= i < |effects| && effects[i].SelectBoot? ==>
      installed.Some? && effects[i].entry in installed.value.allowedBootEntries && IsSafeBootEntryId(effects[i].entry)
    ensures installed.Some? ==> forall k :: 0 <= k < |moments| ==>
      && moments[k].effects <= |effects|
      && var reboots := Reboots(effects[..moments[k].effects]);
      && Recorded(installed.value, initial, reboots, moments[k])
      && (initial.None? ==> Bounded(installed.value, reboots, moments[k].live)
                            && Bounded(installed.value, reboots, moments[k].durable))
  {
    effects, moments := [], [];
    installed := Install(staged, invokerUid, mode, adapter);
    if installed.Some? {
      var answers;
      moments, effects, answers := Campaign(installed.value, initial, events);
      if initial.None? {
        forall k | 0 <= k < |moments|
          ensures var reboots := Reboots(effects[..moments[k].effects]);
            Bounded(installed.value, reboots, moments[k].live) && Bounded(installed.value, reboots, moments[k].durable)
        {
          FreshIsBounded(installed.value, Reboots(effects[..moments[k].effects]), moments[k]);
        }
      }
      forall i | 0 <= i < |effects|
        ensures Lawful(installed.value, effects[i])
      {
      }
    }
  }

  // A state file, if there is one, is whole, charges every reboot within the cap, and names
  // an allowed boot entry or none.
  predicate Bounded(a: Authorization, reboots: nat, f: Option<File>) {
    match f
    case None => reboots == 0
    case Some(file) =>
      && file.content.Parsed?
      && var s := file.content.state;
      && s.campaignId == a.campaignId
      && reboots <= s.rebootsUsed <= a.maxReboots
      && (s.pendingBootEntry.Some? ==> s.pendingBootEntry.value in a.allowedBootEntries)
  }

  lemma FreshIsBounded(a: Authorization, reboots: nat, m: Moment)
    requires Recorded(a, None, reboots, m)
    ensures Bounded(a, reboots, m.live) && Bounded(a, reboots, m.durable)
  {
  }

  // Without a boot adapter an original entry that is not allowed is installed as staged.
  method OriginalMayBeMissing() returns (staged: Authorization, installed: Option<Authorization>)
    ensures installed.Some? && !OriginalAllowed(installed.value)
    ensures staged.originalBootEntry == Some("arch") && staged.allowedBootEntries == ["lts"]
  {
    var digest := seq(64, _ => 'a');
    staged := Authorization(
      SCHEMA_VERSION, "run", 1000, "/repo", digest, digest, digest, digest, {}, 1, 0, Some("arch"), ["lts"]);
    assert IsHex(digest, 64) && IsSafeIdentifier("run") && IsSafeBootEntryId("lts") && IsSafeBootEntryId("arch");
    assert ValidShape(staged);
    assert "arch" != "lts" by { assert |"arch"| != |"lts"|; }
    installed := Install(staged, 1000, WritablePersistent, None);
  }
}
