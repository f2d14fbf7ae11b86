/**
 * The package plan: which package manager command the installer runs for
 * the distribution name chosen on the distro screen.
 */
module Packages {
  import opened Wrappers
  import opened Text

  /** The branch of the resolver a distribution name falls into. */
  datatype Family = ArchFamily | DebianFamily | FedoraFamily | SuseFamily | GenericFamily

  datatype Manager = Pacman | Apt | Dnf | Zypper

  /** A package manager invocation, with the `apt update` run before it for
      the apt plans (its outcome is ignored unless it cannot be started). */
  datatype Plan = Plan(manager: Manager, update: Option<seq<string>>, command: seq<string>)

  const AptUpdate: seq<string> := ["apt", "update"]
  const NoManagerError := "No supported package manager found"

  /** The packages every plan installs, whatever the family. */
  const BasePackages: seq<string> := ["curl", "wget", "file"]

  /** The names each branch of the resolver looks for. */
  function Keywords(f: Family): seq<string>
  {
    match f
    case ArchFamily => ["Arch", "Manjaro"]
    case DebianFamily => ["Ubuntu", "Debian"]
    case FedoraFamily => ["Fedora"]
    case SuseFamily => ["openSUSE"]
    case GenericFamily => []
  }

  /** The position of a branch in the resolver's order of tests. */
  function Order(f: Family): nat
  {
    match f
    case ArchFamily => 0
    case DebianFamily => 1
    case FedoraFamily => 2
    case SuseFamily => 3
    case GenericFamily => 4
  }

  predicate Mentions(name: string, f: Family)
  {
    exists k | k in Keywords(f) :: Contains(name, k)
  }

  /** Ordered, case-sensitive substring tests; the first that matches wins:
      the family found is mentioned by the name (unless it is the generic
      fallback) and no family tested before it is. */
  function FamilyOf(name: string): (f: Family)
    ensures f != GenericFamily ==> Mentions(name, f)
    ensures forall g: Family | Order(g) < Order(f) :: !Mentions(name, g)
  {
    if Contains(name, "Arch") || Contains(name, "Manjaro") then ArchFamily
    else if Contains(name, "Ubuntu") || Contains(name, "Debian") then DebianFamily
    else if Contains(name, "Fedora") then FedoraFamily
    else if Contains(name, "openSUSE") then SuseFamily
    else GenericFamily
  }

  /** The first message the package stage logs. */
  function Announcement(f: Family): string
  {
    match f
    case ArchFamily => "Detected Arch Linux/Manjaro"
    case DebianFamily => "Detected Debian-based OS"
    case FedoraFamily => "Detected Fedora"
    case SuseFamily => "Detected openSUSE"
    case GenericFamily => "Using generic package installation"
  }

  /** The program a manager is started as (and looked up on the PATH as). */
  function Program(m: Manager): string
  {
    match m
    case Pacman => "pacman"
    case Apt => "apt"
    case Dnf => "dnf"
    case Zypper => "zypper"
  }

  /** The install verb and flags of each manager. */
  function InstallPrefix(m: Manager): seq<string>
  {
    match m
    case Pacman => ["pacman", "-S", "--needed", "--noconfirm"]
    case Apt => ["apt", "install", "-y"]
    case Dnf => ["dnf", "install", "-y"]
    case Zypper => ["zypper", "in", "-y"]
  }

  /** The full package list of a named family. */
  function FamilyPackages(f: Family): seq<string>
  {
    match f
    case ArchFamily => ["webkit2gtk-4.1", "base-devel", "curl", "wget", "file", "openssl",
                        "appmenu-gtk-module", "libappindicator-gtk3", "librsvg"]
    case DebianFamily => ["libwebkit2gtk-4.1-dev", "build-essential", "curl", "wget", "file",
                          "libxdo-dev", "libssl-dev", "libayatana-appindicator3-dev", "librsvg2-dev"]
    case FedoraFamily => ["webkit2gtk4.1-devel", "openssl-devel", "curl", "wget", "file",
                          "libappindicator-gtk3-devel", "librsvg2-devel"]
    case SuseFamily => ["webkit2gtk3-devel", "libopenssl-devel", "curl", "wget", "file",
                        "libappindicator3-1", "librsvg-devel"]
    case GenericFamily => BasePackages
  }

  function FamilyManager(f: Family): Manager
    requires f != GenericFamily
  {
    match f
    case ArchFamily => Pacman
    case DebianFamily => Apt
    case FedoraFamily => Dnf
    case SuseFamily => Zypper
  }

  function MakePlan(m: Manager, packages: seq<string>): Plan
  {
    Plan(m, if m == Apt then Some(AptUpdate) else None, InstallPrefix(m) + packages)
  }

  /** The generic branch probes the PATH for apt, dnf, zypper and pacman, in that order. */
  function GenericManager(onPath: set<string>): Option<Manager>
  {
    if "apt" in onPath then Some(Apt)
    else if "dnf" in onPath then Some(Dnf)
    else if "zypper" in onPath then Some(Zypper)
    else if "pacman" in onPath then Some(Pacman)
    else None
  }

  /** The plan for distribution `name` on a machine whose PATH holds `onPath`. */
  function ResolvePlan(name: string, onPath: set<string>): (r: Result<Plan, string>)
    ensures r.Err? ==> r.error == NoManagerError
    ensures r.Ok? ==> |r.value.command| > 0 && r.value.command[0] == Program(r.value.manager)
    ensures r.Ok? ==> r.value.update == if r.value.manager == Apt then Some(AptUpdate) else None
  {
    var f := FamilyOf(name);
    if f != GenericFamily then Ok(MakePlan(FamilyManager(f), FamilyPackages(f)))
    else
      match GenericManager(onPath)
      case Some(m) => Ok(MakePlan(m, BasePackages))
      case None => Err(NoManagerError)
  }

  /** A named family always gets its own manager, whatever is on the PATH
      (the command then fails to start if that manager is missing). */
  lemma NamedFamilyPlan(name: string, onPath: set<string>)
    requires FamilyOf(name) != GenericFamily
    ensures var r := ResolvePlan(name, onPath);
      r.Ok? && r.value.manager == FamilyManager(FamilyOf(name)) &&
      r.value.command == InstallPrefix(r.value.manager) + FamilyPackages(FamilyOf(name))
  {
  }

  /** The generic branch picks the first of apt, dnf, zypper, pacman found on
      the PATH, and fails exactly when none is there. */
  lemma GenericPreference(name: string, onPath: set<string>)
    requires FamilyOf(name) == GenericFamily
    ensures var r := ResolvePlan(name, onPath);
      && (r.Err? <==> "apt" !in onPath && "dnf" !in onPath && "zypper" !in onPath && "pacman" !in onPath)
      && ("apt" in onPath ==> r.Ok? && r.value.manager == Apt)
      && ("apt" !in onPath && "dnf" in onPath ==> r.Ok? && r.value.manager == Dnf)
      && ("apt" !in onPath && "dnf" !in onPath && "zypper" in onPath ==> r.Ok? && r.value.manager == Zypper)
      && ("apt" !in onPath && "dnf" !in onPath && "zypper" !in onPath && "pacman" in onPath ==>
            r.Ok? && r.value.manager == Pacman)
      && (r.Ok? ==> r.value.command == InstallPrefix(r.value.manager) + BasePackages)
  {
  }

  /** Every plan installs curl, wget and file. */
  lemma PlansInstallBasePackages(name: string, onPath: set<string>)
    ensures var r := ResolvePlan(name, onPath);
      r.Ok? ==> forall p | p in BasePackages :: p in r.value.command
  {
    var r := ResolvePlan(name, onPath);
    if r.Ok? {
      var f := FamilyOf(name);
      var pkgs := FamilyPackages(f);
      assert forall p | p in BasePackages :: p in pkgs;
      assert r.value.command == InstallPrefix(r.value.manager) + pkgs;
    }
  }

  /** `apt update` precedes exactly the Debian plan and the generic apt plan. */
  lemma OnlyAptPlansUpdate(name: string, onPath: set<string>)
    ensures var r := ResolvePlan(name, onPath);
      r.Ok? ==>
        (r.value.update.Some? <==>
          FamilyOf(name) == DebianFamily || (FamilyOf(name) == GenericFamily && "apt" in onPath))
  {
  }

  lemma ArchEntryResolves()
    ensures FamilyOf("Arch Linux / Manjaro") == ArchFamily
  {
    assert OccursAt("Arch Linux / Manjaro", "Arch", 0);
  }

  lemma DebianEntryResolves()
    ensures FamilyOf("Debian / Ubuntu") == DebianFamily
  {
    MissingChar("Debian / Ubuntu", "Arch", 0);
    MissingChar("Debian / Ubuntu", "Manjaro", 0);
    assert OccursAt("Debian / Ubuntu", "Ubuntu", 9);
  }

  lemma FedoraEntryResolves()
    ensures FamilyOf("Fedora") == FedoraFamily
  {
    MissingChar("Fedora", "Arch", 0);
    MissingChar("Fedora", "Manjaro", 0);
    MissingChar("Fedora", "Ubuntu", 0);
    MissingChar("Fedora", "Debian", 0);
    assert OccursAt("Fedora", "Fedora", 0);
  }

  lemma SuseEntryResolves()
    ensures FamilyOf("openSUSE") == SuseFamily
  {
    MissingChar("openSUSE", "Arch", 0);
    MissingChar("openSUSE", "Manjaro", 0);
    MissingChar("openSUSE", "Ubuntu", 1);
    MissingChar("openSUSE", "Debian", 0);
    MissingChar("openSUSE", "Fedora", 0);
    assert OccursAt("openSUSE", "openSUSE", 0);
  }

  lemma GenericEntryNamesNoArchOrDebian()
    ensures !Contains("Other (Generic)", "Arch") && !Contains("Other (Generic)", "Manjaro")
    ensures !Contains("Other (Generic)", "Ubuntu") && !Contains("Other (Generic)", "Debian")
  {
    MissingChar("Other (Generic)", "Arch", 0);
    MissingChar("Other (Generic)", "Manjaro", 0);
    MissingChar("Other (Generic)", "Ubuntu", 0);
    MissingChar("Other (Generic)", "Debian", 0);
  }

  lemma GenericEntryResolves()
    ensures FamilyOf("Other (Generic)") == GenericFamily
  {
    GenericEntryNamesNoArchOrDebian();
    MissingChar("Other (Generic)", "Fedora", 0);
    MissingChar("Other (Generic)", "openSUSE", 0);
  }

  /** The five entries of the distro menu each fall into the branch they name. */
  lemma MenuEntriesResolve()
    ensures FamilyOf("Arch Linux / Manjaro") == ArchFamily
    ensures FamilyOf("Debian / Ubuntu") == DebianFamily
    ensures FamilyOf("Fedora") == FedoraFamily
    ensures FamilyOf("openSUSE") == SuseFamily
    ensures FamilyOf("Other (Generic)") == GenericFamily
  {
    ArchEntryResolves();
    DebianEntryResolves();
    FedoraEntryResolves();
    SuseEntryResolves();
    GenericEntryResolves();
  }
}
