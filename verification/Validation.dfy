/** What a new run checks and derives from the instance it finds. */
module Validation {
  import opened Text
  import opened Instance
  import opened UpgradeWorkflows
  import opened UpgradeSafety
  import opened UpgradeRollback
  import opened StartupScript
  import opened Licenses

  /** The names of the resources of a run; they end in a random suffix. */
  datatype Names = Names(newOSDisk: string, installDisk: string, snapshot: string, machineImage: string)

  /** What the backend guarantees about the attachments of an instance. */
  ghost predicate WellAttached(w: World) {
    && (forall i | 0 < i < |w.attached| :: !w.attached[i].boot)
    && (forall i, j | 0 <= i < j < |w.attached| ::
          w.attached[i].device != w.attached[j].device && w.attached[i].source != w.attached[j].source)
    && (forall i | 0 <= i < |w.attached| :: w.attached[i].source in w.disks)
  }

  ghost predicate Unused(names: Names, w: World) {
    && names.newOSDisk !in w.disks && names.installDisk !in w.disks && names.newOSDisk != names.installDisk
    && !DeviceInUse(w, names.installDisk)
    && names.snapshot !in w.snapshots && names.machineImage !in w.machineImages
  }

  /** The version that the upgrade script reports. */
  function VersionString(v: Version): string {
    match v
    case Windows2008r2 => "Windows Server 2008 R2 Datacenter"
    case Windows2012r2 => "Windows Server 2012 R2 Datacenter"
    case Windows2016 => "Windows Server 2016 Datacenter"
    case Windows2019 => "Windows Server 2019 Datacenter"
    case Windows2022 => "Windows Server 2022 Datacenter"
  }

  function InstallFolder(v: Version): string {
    match v
    case Windows2008r2 => ""
    case Windows2012r2 => "*2012_R2_64Bit*"
    case Windows2016 => "*2016_64Bit*"
    case Windows2019 => "*2019_64Bit*"
    case Windows2022 => "*2022_64Bit*"
  }

  /** The licenses of the first attached disk, if it is a boot disk that can be read. */
  ghost predicate Upgradable(w: World, source: Version, target: Version) {
    && w.attached != [] && w.attached[0].boot && w.attached[0].source in w.disks
    && SomeEndsWith(w.disks[w.attached[0].source], ExpectedLicenses(source))
    && !OneEndsWith(w.disks[w.attached[0].source], UpgradedLicenseFor(target))
  }

  /** The backup takes precedence over the URL itself. */
  method DeriveScriptUrl(items: seq<Item>, ghost metadata: map<string, string>) returns (originalUrl: Option<string>)
    requires Lists(items, metadata)
    ensures originalUrl == Derived(metadata)
  {
    SearchReadsTheMap(items, metadata, SCRIPT_URL_BACKUP);
    SearchReadsTheMap(items, metadata, SCRIPT_URL);
    originalUrl := GetMetadataValue(items, SCRIPT_URL_BACKUP);
    if originalUrl.None? {
      originalUrl := GetMetadataValue(items, SCRIPT_URL);
    }
  }

  /** Accepts exactly the instances that can be upgraded, and derives from the boot disk and
      the metadata all that a run needs: on a sound backend with unused names, the run
      starts in a state from which everything proved about runs holds. */
  method ValidateAndDeriveInstance(w: World, items: seq<Item>, source: Version, target: Version, names: Names,
                                   createMachineBackup: bool) returns (r: Result<Vars>)
    requires Supported(source, target) && Lists(items, w.metadata)
    ensures r.Ok? <==> Upgradable(w, source, target)
    ensures r.Ok? ==> r.value.originalUrl == Derived(w.metadata) && r.value.licenseToAdd == UpgradedLicenseFor(target)
    ensures r.Ok? ==>
      && OldBoot(r.value) == w.attached[0] && r.value.createMachineBackup == createMachineBackup
      && names == Names(r.value.newOSDisk, r.value.installDisk, r.value.snapshot, r.value.machineImage)
      && r.value.currentVersion == VersionString(source) && r.value.newVersion == VersionString(target)
      && r.value.installFolder == InstallFolder(target)
    ensures r.Ok? && WellAttached(w) && Unused(names, w) ==> Start(r.value, w)
  {
    if w.attached == [] {
      return Err("no disk");
    }
    var bootDisk := w.attached[0];
    if !bootDisk.boot {
      return Err("no boot disk");
    }
    if bootDisk.source !in w.disks {
      return Err("unreadable");
    }
    var verdict := ValidateLicense(w.disks[bootDisk.source], source, target);
    if verdict != Accepted {
      return Err("licenses");
    }
    var originalUrl := DeriveScriptUrl(items, w.metadata);
    var u := Vars(bootDisk.source, bootDisk.device, bootDisk.autoDelete, names.newOSDisk, names.installDisk,
                  names.snapshot, names.machineImage, createMachineBackup, originalUrl,
                  UpgradedLicenseFor(target), VersionString(source), VersionString(target), InstallFolder(target));
    if WellAttached(w) && Unused(names, w) {
      DerivedStart(u, w, names);
    }
    return Ok(u);
  }

  lemma DerivedStart(u: Vars, w: World, names: Names)
    requires w.attached != [] && w.attached[0] == OldBoot(u) && WellAttached(w) && Unused(names, w)
    requires names == Names(u.newOSDisk, u.installDisk, u.snapshot, u.machineImage)
    ensures Start(u, w)
  {
  }

  /** An instance on which a preparation has run to its end is refused for the same upgrade,
      whatever its licenses were before: the new boot disk carries the added one. */
  lemma PreparedInstanceIsRefused(u: Vars, w0: World, source: Version, target: Version)
    requires Supported(source, target) && Start(u, w0) && u.licenseToAdd == UpgradedLicenseFor(target)
    ensures ApplyAll(w0, PrepareOps(u)).Some?
    ensures !Upgradable(ApplyAll(w0, PrepareOps(u)).value, source, target)
  {
    PrepareResult(u, w0);
    var w := Prepared(u, w0);
    assert w.attached[0] == NewBoot(u);
    UpgradedDiskIsRefused(w0.disks[u.osDisk], source, target);
  }
}
