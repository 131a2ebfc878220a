/**
  The rules of the NetBox VM import (`nb_vm.py`) that do not touch NetBox: the status a power
  state maps to, the `'True'`/`'False'` flags, the platform slug and the space-insensitive
  platform name comparison, the disk buckets and their totals, and the names the script derives
  for a VM and its tenant.
*/
module VmRules {
  import opened Wrappers
  import opened Text
  import opened VmCollect

  // ---------------------------------------------------------------------------------------
  // Status
  // ---------------------------------------------------------------------------------------

  /** The two power states the script recognises. */
  predicate Powered(state: Value)
  {
    state == Str("poweredOn") || state == Str("poweredOff")
  }

  function PoweredStatus(state: Value): string
    requires Powered(state)
  {
    if state == Str("poweredOn") then "active" else "offline"
  }

  /**
    `status` after one more VM: set from a recognised power state, otherwise left as the previous
    VM's value (None while no VM has set it, in which case reading it raises `NameError`).
  */
  function NextStatus(state: Value, prev: Option<string>): Option<string>
  {
    if Powered(state) then Some(PoweredStatus(state)) else prev
  }

  /** `status` after the VMs with power states `states`, in order, starting from `init`. */
  function StatusAfter(states: seq<Value>, init: Option<string>): Option<string>
  {
    if states == [] then init
    else NextStatus(states[|states| - 1], StatusAfter(states[..|states| - 1], init))
  }

  /** The status a VM is written with is that of the last VM with a recognised power state. */
  lemma {:induction false} StatusIsLastPowered(states: seq<Value>, init: Option<string>, i: nat)
    requires i < |states| && Powered(states[i])
    requires forall j :: i < j < |states| ==> !Powered(states[j])
    ensures StatusAfter(states, init) == Some(PoweredStatus(states[i]))
  {
    if i < |states| - 1 {
      StatusIsLastPowered(states[..|states| - 1], init, i);
    }
  }

  /** With no recognised power state so far, `status` is still whatever it was before. */
  lemma {:induction false} StatusUnchangedWithoutPowered(states: seq<Value>, init: Option<string>)
    requires forall j :: 0 <= j < |states| ==> !Powered(states[j])
    ensures StatusAfter(states, init) == init
  {
    if states != [] {
      StatusUnchangedWithoutPowered(states[..|states| - 1], init);
    }
  }

  // ---------------------------------------------------------------------------------------
  // Snapshot and thin-provisioning flags
  // ---------------------------------------------------------------------------------------

  /** `'True'` becomes 1, `'False'` becomes 0, anything else is left as it is. */
  function FlagValue(v: Value): Value
  {
    if v == Str("True") then Num(1) else if v == Str("False") then Num(0) else v
  }

  /** Python `bool(v)` on the values a record can hold. */
  predicate Truthy(v: Value)
  {
    match v
    case Str(s) => s != []
    case Num(n) => n != 0
    case Flag(b) => b
    case Nics(m) => m != map[]
    case Null => false
  }

  /** What the collector writes (`'True'`/`'False'`) comes back as the boolean it came from. */
  lemma FlagRoundTrip(b: bool)
    ensures FlagValue(Str(BoolText(b))) == Num(if b then 1 else 0)
    ensures Truthy(FlagValue(Str(BoolText(b)))) == b
  {
  }

  /** Any other text keeps its own truth value: only the empty string reads as false. */
  lemma FlagOtherText(s: string)
    requires s != "True" && s != "False"
    ensures FlagValue(Str(s)) == Str(s)
    ensures Truthy(FlagValue(Str(s))) <==> s != []
  {
  }

  // ---------------------------------------------------------------------------------------
  // Platform slug and name comparison
  // ---------------------------------------------------------------------------------------

  /** The characters the slug drops. */
  const SlugDropped: set<char> := {' ', '.', '\'', '(', ')', '"', '+', '/'}

  /** The slug as the script builds it: eight `replace(c, '')` calls in a row. */
  function Slug(ostype: string): string
  {
    RemoveChar(RemoveChar(RemoveChar(RemoveChar(RemoveChar(RemoveChar(RemoveChar(RemoveChar(
      ostype, ' '), '.'), '\''), '('), ')'), '"'), '+'), '/')
  }

  /** Reference definition: one pass that keeps, in order, every character outside `d`. */
  function Without(s: string, d: set<char>): (r: string)
  {
    if s == [] then [] else (if s[0] in d then [] else [s[0]]) + Without(s[1..], d)
  }

  lemma {:induction false} RemoveCharAfterWithout(s: string, d: set<char>, c: char)
    ensures RemoveChar(Without(s, d), c) == Without(s, d + {c})
  {
    if s != [] {
      RemoveCharAfterWithout(s[1..], d, c);
      var w := Without(s, d);
      if s[0] !in d {
        assert w == [s[0]] + Without(s[1..], d);
        assert w[1..] == Without(s[1..], d);
      } else {
        assert w == Without(s[1..], d);
      }
    }
  }

  lemma {:induction false} WithoutNothing(s: string)
    ensures Without(s, {}) == s
  {
    if s != [] {
      WithoutNothing(s[1..]);
    }
  }

  /** The eight replacements remove exactly the characters of SlugDropped in a single pass. */
  lemma SlugIsWithout(ostype: string)
    ensures Slug(ostype) == Without(ostype, SlugDropped)
  {
    WithoutNothing(ostype);
    RemoveCharAfterWithout(ostype, {}, ' ');
    RemoveCharAfterWithout(ostype, {' '}, '.');
    RemoveCharAfterWithout(ostype, {' ', '.'}, '\'');
    RemoveCharAfterWithout(ostype, {' ', '.', '\''}, '(');
    RemoveCharAfterWithout(ostype, {' ', '.', '\'', '('}, ')');
    RemoveCharAfterWithout(ostype, {' ', '.', '\'', '(', ')'}, '"');
    RemoveCharAfterWithout(ostype, {' ', '.', '\'', '(', ')', '"'}, '+');
    RemoveCharAfterWithout(ostype, {' ', '.', '\'', '(', ')', '"', '+'}, '/');
    assert {} + {' '} == {' '};
    assert {' '} + {'.'} == {' ', '.'};
    assert {' ', '.'} + {'\''} == {' ', '.', '\''};
    assert {' ', '.', '\''} + {'('} == {' ', '.', '\'', '('};
    assert {' ', '.', '\'', '('} + {')'} == {' ', '.', '\'', '(', ')'};
    assert {' ', '.', '\'', '(', ')'} + {'"'} == {' ', '.', '\'', '(', ')', '"'};
    assert {' ', '.', '\'', '(', ')', '"'} + {'+'} == {' ', '.', '\'', '(', ')', '"', '+'};
    assert {' ', '.', '\'', '(', ')', '"', '+'} + {'/'} == SlugDropped;
  }

  /** The single pass keeps the other characters in their order: it distributes over concatenation. */
  lemma {:induction false} WithoutAppend(s: string, t: string, d: set<char>)
    ensures Without(s + t, d) == Without(s, d) + Without(t, d)
  {
    if s != [] {
      WithoutAppend(s[1..], t, d);
      assert (s + t)[0] == s[0] && (s + t)[1..] == s[1..] + t;

    } else {
      assert s + t == t;
    }
  }

  lemma {:induction false} WithoutIdempotent(s: string, d: set<char>)
    ensures Without(Without(s, d), d) == Without(s, d)
  {
    if s != [] {
      WithoutIdempotent(s[1..], d);
      WithoutAppend(if s[0] in d then [] else [s[0]], Without(s[1..], d), d);
      if s[0] !in d {
        assert Without([s[0]], d) == [s[0]] by {
          assert [s[0]][1..] == [];
        }
      }
    }
  }

  /** The slug holds none of the dropped characters and every other character of the OS type. */
  lemma SlugCharacters(ostype: string)
    ensures forall c :: c in Slug(ostype) <==> c in ostype && c !in SlugDropped
  {
    SlugIsWithout(ostype);
    WithoutMembers(ostype, SlugDropped);
  }

  /** Reference property of the single pass: exactly the characters outside `d` remain. */
  lemma {:induction false} WithoutMembers(s: string, d: set<char>)
    ensures forall x :: x in Without(s, d) <==> x in s && x !in d
  {
    if s != [] {
      WithoutMembers(s[1..], d);
      assert s == [s[0]] + s[1..];
    }
  }

  lemma WithoutKeepsOrder(before: string, x: char, after: string, d: set<char>)
    requires x !in d
    ensures Without(before + [x] + after, d) == Without(before, d) + [x] + Without(after, d)
  {
    WithoutAppend(before + [x], after, d);
    WithoutAppend(before, [x], d);
    assert [x][1..] == [];
  }

  /** The slug keeps the other characters in their order. */
  lemma SlugKeepsOrder(before: string, x: char, after: string)
    requires x !in SlugDropped
    ensures Slug(before + [x] + after) == Slug(before) + [x] + Slug(after)
  {
    SlugIsWithout(before + [x] + after);
    SlugIsWithout(before);
    SlugIsWithout(after);
    WithoutKeepsOrder(before, x, after, SlugDropped);
  }

  /** Building the slug of a slug changes nothing. */
  lemma SlugIdempotent(ostype: string)
    ensures Slug(Slug(ostype)) == Slug(ostype)
  {
    SlugIsWithout(ostype);
    SlugIsWithout(Slug(ostype));
    WithoutIdempotent(ostype, SlugDropped);
  }

  /** A NetBox platform name and an OS type are compared with every space removed from both. */
  function Squash(s: string): string
  {
    RemoveChar(s, ' ')
  }

  predicate SameOs(platformName: string, ostype: string)
  {
    Squash(platformName) == Squash(ostype)
  }

  /** Names differing only in spaces count as the same platform. */
  lemma SameOsIgnoresSpaces(a: string, b: string)
    ensures SameOs(a, b) <==> Without(a, {' '}) == Without(b, {' '})
  {
    WithoutNothing(a);
    WithoutNothing(b);
    RemoveCharAfterWithout(a, {}, ' ');
    RemoveCharAfterWithout(b, {}, ' ');
    assert {} + {' '} == {' '};
  }

  // ---------------------------------------------------------------------------------------
  // Disks
  // ---------------------------------------------------------------------------------------

  /** A regular or RDM disk as the script reads it: its datastore path and its whole gigabytes. */
  datatype Disk = Disk(path: string, size: int)

  datatype Bucket = Sata | Sas | Ssd | Unknown

  /** `re.findall` on a fixed word is non-empty exactly when the word occurs; SATA is tested first, then SAS, then SSD. */
  function BucketOf(path: string): (b: Bucket)
    ensures b == Sata <==> Contains(path, "SATA")
    ensures b == Sas <==> !Contains(path, "SATA") && Contains(path, "SAS")
    ensures b == Ssd <==> !Contains(path, "SATA") && !Contains(path, "SAS") && Contains(path, "SSD")
    ensures b == Unknown <==> !Contains(path, "SATA") && !Contains(path, "SAS") && !Contains(path, "SSD")
  {
    if Contains(path, "SATA") then Sata
    else if Contains(path, "SAS") then Sas
    else if Contains(path, "SSD") then Ssd
    else Unknown
  }

  /** The four accumulators `SAS`, `SSD`, `SATA`, `Unknown`. */
  datatype Totals = Totals(sas: int, ssd: int, sata: int, unknown: int)

  function BucketTotal(t: Totals, b: Bucket): int
  {
    match b
    case Sata => t.sata
    case Sas => t.sas
    case Ssd => t.ssd
    case Unknown => t.unknown
  }

  /** One disk added to the accumulator of its bucket. */
  function AddDisk(t: Totals, d: Disk): Totals
  {
    match BucketOf(d.path)
    case Sata => t.(sata := t.sata + d.size)
    case Sas => t.(sas := t.sas + d.size)
    case Ssd => t.(ssd := t.ssd + d.size)
    case Unknown => t.(unknown := t.unknown + d.size)
  }

  /** The accumulators after the regular-disk loop and the RDM loop over `disks`, in order. */
  function Tally(disks: seq<Disk>): Totals
  {
    if disks == [] then Totals(0, 0, 0, 0)
    else AddDisk(Tally(disks[..|disks| - 1]), disks[|disks| - 1])
  }

  /** `total_disk_gb`. */
  function TotalDisk(t: Totals): int
  {
    t.sas + t.sata + t.ssd + t.unknown
  }

  function SizeSum(disks: seq<Disk>): int
  {
    if disks == [] then 0 else SizeSum(disks[..|disks| - 1]) + disks[|disks| - 1].size
  }

  /** The disks of one bucket, in order. */
  function InBucket(disks: seq<Disk>, b: Bucket): (r: seq<Disk>)
    ensures forall d :: d in r <==> d in disks && BucketOf(d.path) == b
  {
    if disks == [] then []
    else
      var init, last := disks[..|disks| - 1], disks[|disks| - 1];
      assert disks == init + [last];
      InBucket(init, b) + (if BucketOf(last.path) == b then [last] else [])
  }

  lemma AddDiskBucket(t: Totals, d: Disk, b: Bucket)
    ensures BucketTotal(AddDisk(t, d), b) == BucketTotal(t, b) + if BucketOf(d.path) == b then d.size else 0
  {
  }

  /** Each accumulator holds exactly the sizes of the disks of its bucket. */
  lemma {:induction false} TallyBuckets(disks: seq<Disk>, b: Bucket)
    ensures BucketTotal(Tally(disks), b) == SizeSum(InBucket(disks, b))
  {
    if disks != [] {
      var init, last := disks[..|disks| - 1], disks[|disks| - 1];
      TallyBuckets(init, b);
      AddDiskBucket(Tally(init), last, b);
      var r := InBucket(init, b);
      if BucketOf(last.path) == b {
        assert (r + [last])[..|r + [last]| - 1] == r;
      } else {
        assert r + [] == r;
      }
    }
  }

  /** Every disk lands in exactly one bucket, so `total_disk_gb` is the sum of all sizes. */
  lemma {:induction false} TallyTotal(disks: seq<Disk>)
    ensures TotalDisk(Tally(disks)) == SizeSum(disks)
  {
    if disks != [] {
      TallyTotal(disks[..|disks| - 1]);
    }
  }

  // ---------------------------------------------------------------------------------------
  // Names
  // ---------------------------------------------------------------------------------------

  /** The name a vSphere VM has in NetBox: `vm[:64]`. */
  function NetboxName(vm: string): string
  {
    Take(vm, 64)
  }

  /** The tenant looked up when updating: `folder[:30]` of the already right-stripped folder. */
  function UpdateTenantName(folder: string): string
  {
    Take(RStrip(folder), 30)
  }

  /** The tenant looked up when creating: the same, right-stripped once more. */
  function CreateTenantName(folder: string): string
  {
    RStrip(Take(RStrip(folder), 30))
  }

  /**
    The two tenant names differ exactly when the cut at 30 characters ends in a space; the
    creation name is then the update name without its trailing spaces.
  */
  lemma TenantNames(folder: string)
    ensures StartsWith(UpdateTenantName(folder), CreateTenantName(folder))
    ensures UpdateTenantName(folder) != CreateTenantName(folder) <==>
              |UpdateTenantName(folder)| > 0 && UpdateTenantName(folder)[|UpdateTenantName(folder)| - 1] == ' '
  {
  }

  /** Truncation only shortens: a name of at most 64 characters is its own NetBox name. */
  lemma NetboxNameShort(vm: string)
    ensures NetboxName(vm) == vm <==> |vm| <= 64
  {
  }
}
