/** The counter catalog: every sar column the tools know (`base_graphs`),
    with its category, the pattern class of its values and an optional
    display label; the description prose is not part of this model. The
    entries follow sar_metadata.py line for line. */
module Catalog {
  import opened Wrappers

  /** The value patterns of sar_metadata.py, one per regular expression. */
  datatype ValueClass =
    | Integer     // [+-]?\d+
    | Decimal     // (?:[+-]?\d+\.\d+|nan)
    | Hex         // [a-fA-F0-9]+
    | Iface       // [^ \t]+ (interface and device names)
    | UsbName     // [^\t]+
    | FsName      // [^\t]+
    | Cpu         // (?:all|\d+)
    | Intr        // (?:sum|\d+)
    | Interrupts  // a decimal or N/A

  datatype Entry = Entry(cat: string, regexp: Option<ValueClass>, caption: Option<string>)

  /** Column titles that index a second level of data (`_indexcolumn`). */
  const IndexColumns: set<string> :=
    {"CPU", "IFACE", "DEV", "INTR", "FAN", "TEMP", "BUS", "FILESYSTEM", "TTY"}

  /** `base_graphs[name]`, if the name is a key. */
  function BaseGraph(name: string): Option<Entry> {
    match name
    case "%user" => Some(Entry("Utilization", Some(Decimal), Some("User Utilization (%)")))
    case "%usr" => Some(Entry("Utilization", Some(Decimal), Some("User Utilization (novirt %)")))
    case "%system" => Some(Entry("Utilization", Some(Decimal), None))
    case "%sys" => Some(Entry("Utilization", Some(Decimal), None))
    case "%iowait" => Some(Entry("Utilization", Some(Decimal), None))
    case "%irq" => Some(Entry("Utilization", Some(Decimal), None))
    case "%soft" => Some(Entry("Utilization", Some(Decimal), None))
    case "%nice" => Some(Entry("Utilization", Some(Decimal), None))
    case "%gnice" => Some(Entry("Utilization", Some(Decimal), None))
    case "%idle" => Some(Entry("Utilization", Some(Decimal), None))
    case "%steal" => Some(Entry("Utilization", Some(Decimal), None))
    case "%guest" => Some(Entry("Utilization", Some(Decimal), None))
    case "runq-sz" => Some(Entry("Load", Some(Integer), None))
    case "plist-sz" => Some(Entry("Load", Some(Integer), None))
    case "ldavg-1" => Some(Entry("Load", Some(Decimal), None))
    case "ldavg-5" => Some(Entry("Load", Some(Decimal), None))
    case "ldavg-15" => Some(Entry("Load", Some(Decimal), None))
    case "blocked" => Some(Entry("Load", Some(Integer), None))
    case "proc/s" => Some(Entry("Load", Some(Decimal), None))
    case "cswch/s" => Some(Entry("Load", Some(Decimal), None))
    case "kbmemfree" => Some(Entry("Memory", Some(Integer), None))
    case "kbmemused" => Some(Entry("Memory", Some(Integer), None))
    case "%memused" => Some(Entry("Memory", Some(Decimal), None))
    case "kbbuffers" => Some(Entry("Memory", Some(Integer), None))
    case "kbcached" => Some(Entry("Memory", Some(Integer), None))
    case "kbcommit" => Some(Entry("Memory", Some(Integer), None))
    case "%commit" => Some(Entry("Memory", Some(Decimal), None))
    case "kbactive" => Some(Entry("Memory", Some(Integer), None))
    case "kbinact" => Some(Entry("Memory", Some(Integer), None))
    case "kbdirty" => Some(Entry("Memory", Some(Integer), None))
    case "kbhugfree" => Some(Entry("Memory", Some(Integer), None))
    case "kbhugused" => Some(Entry("Memory", Some(Integer), None))
    case "%hugused" => Some(Entry("Memory", Some(Decimal), None))
    case "frmpg/s" => Some(Entry("Memory", Some(Decimal), None))
    case "bufpg/s" => Some(Entry("Memory", Some(Decimal), None))
    case "campg/s" => Some(Entry("Memory", Some(Decimal), None))
    case "pswpin/s" => Some(Entry("Swap", Some(Decimal), None))
    case "pswpout/s" => Some(Entry("Swap", Some(Decimal), None))
    case "kbswpfree" => Some(Entry("Swap", Some(Integer), None))
    case "kbswpused" => Some(Entry("Swap", Some(Integer), None))
    case "%swpused" => Some(Entry("Swap", Some(Decimal), None))
    case "kbswpcad" => Some(Entry("Swap", Some(Integer), None))
    case "%swpcad" => Some(Entry("Swap", Some(Decimal), None))
    case "nswap/s" => Some(Entry("Swap", Some(Decimal), None))
    case "rtps" => Some(Entry("I/O", Some(Decimal), None))
    case "wtps" => Some(Entry("I/O", Some(Decimal), None))
    case "bread/s" => Some(Entry("I/O", Some(Decimal), None))
    case "bwrtn/s" => Some(Entry("I/O", Some(Decimal), None))
    case "rxkB/s" => Some(Entry("I/O", Some(Decimal), None))
    case "txkB/s" => Some(Entry("I/O", Some(Decimal), None))
    case "tps" => Some(Entry("I/O", Some(Decimal), None))
    case "rd_sec/s" => Some(Entry("I/O", Some(Decimal), None))
    case "wr_sec/s" => Some(Entry("I/O", Some(Decimal), None))
    case "avgrq-sz" => Some(Entry("I/O", Some(Decimal), None))
    case "avgqu-sz" => Some(Entry("I/O", Some(Decimal), None))
    case "await" => Some(Entry("I/O", Some(Decimal), None))
    case "svctm" => Some(Entry("I/O", Some(Decimal), None))
    case "%util" => Some(Entry("I/O", Some(Decimal), None))
    case "maxpower" => Some(Entry("Power", Some(Integer), None))
    case "MHz" => Some(Entry("Power", Some(Integer), None))
    case "FAN" => Some(Entry("Power", Some(Integer), None))
    case "%temp" => Some(Entry("Power", Some(Decimal), None))
    case "degC" => Some(Entry("Power", Some(Decimal), None))
    case "drpm" => Some(Entry("Power", Some(Decimal), None))
    case "rpm" => Some(Entry("Power", Some(Decimal), None))
    case "pgpgin/s" => Some(Entry("Paging", Some(Decimal), None))
    case "pgpgout/s" => Some(Entry("Paging", Some(Decimal), None))
    case "fault/s" => Some(Entry("Paging", Some(Decimal), None))
    case "majflt/s" => Some(Entry("Paging", Some(Decimal), None))
    case "minflt/s" => Some(Entry("Paging", Some(Decimal), None))
    case "pgfree/s" => Some(Entry("Paging", Some(Decimal), None))
    case "pgscank/s" => Some(Entry("Paging", Some(Decimal), None))
    case "pgscand/s" => Some(Entry("Paging", Some(Decimal), None))
    case "pgsteal/s" => Some(Entry("Paging", Some(Decimal), None))
    case "%vmeff" => Some(Entry("Paging", Some(Decimal), None))
    case "file-nr" => Some(Entry("Files", Some(Integer), None))
    case "inode-nr" => Some(Entry("Files", Some(Integer), None))
    case "file-sz" => Some(Entry("Files", Some(Integer), None))
    case "inode-sz" => Some(Entry("Files", Some(Integer), None))
    case "super-sz" => Some(Entry("Files", Some(Integer), None))
    case "%super-sz" => Some(Entry("Files", Some(Decimal), None))
    case "dquot-sz" => Some(Entry("Files", Some(Integer), None))
    case "%dquot-sz" => Some(Entry("Files", Some(Decimal), None))
    case "dentunusd" => Some(Entry("Files", Some(Integer), None))
    case "MBfsfree" => Some(Entry("Files", Some(Integer), None))
    case "MBfsused" => Some(Entry("Files", Some(Integer), None))
    case "%fsused" => Some(Entry("Files", Some(Decimal), None))
    case "%ufsused" => Some(Entry("Files", Some(Decimal), None))
    case "Ifree" => Some(Entry("Files", Some(Integer), None))
    case "Iused" => Some(Entry("Files", Some(Integer), None))
    case "%Iused" => Some(Entry("Files", Some(Decimal), None))
    case "rtsig-sz" => Some(Entry("Other", Some(Integer), None))
    case "%rtsig-sz" => Some(Entry("Other", Some(Decimal), None))
    case "pty-nr" => Some(Entry("Other", Some(Integer), None))
    case "call/s" => Some(Entry("NFS", Some(Decimal), None))
    case "retrans/s" => Some(Entry("NFS", Some(Decimal), None))
    case "read/s" => Some(Entry("NFS", Some(Decimal), None))
    case "write/s" => Some(Entry("NFS", Some(Decimal), None))
    case "access/s" => Some(Entry("NFS", Some(Decimal), None))
    case "getatt/s" => Some(Entry("NFS", Some(Decimal), None))
    case "scall/s" => Some(Entry("NFSD", Some(Decimal), None))
    case "badcall/s" => Some(Entry("NFSD", Some(Decimal), None))
    case "packet/s" => Some(Entry("NFSD", Some(Decimal), None))
    case "udp/s" => Some(Entry("NFSD", Some(Decimal), None))
    case "tcp/s" => Some(Entry("NFSD", Some(Decimal), None))
    case "hit/s" => Some(Entry("NFSD", Some(Decimal), None))
    case "miss/s" => Some(Entry("NFSD", Some(Decimal), None))
    case "sread/s" => Some(Entry("NFSD", Some(Decimal), None))
    case "swrite/s" => Some(Entry("NFSD", Some(Decimal), None))
    case "saccess/s" => Some(Entry("NFSD", Some(Decimal), None))
    case "sgetatt/s" => Some(Entry("NFSD", Some(Decimal), None))
    case "rcvin/s" => Some(Entry("TTY", Some(Decimal), None))
    case "xmtin/s" => Some(Entry("TTY", Some(Decimal), None))
    case "framerr/s" => Some(Entry("TTY", Some(Decimal), None))
    case "prtyerr/s" => Some(Entry("TTY", Some(Decimal), None))
    case "brk/s" => Some(Entry("TTY", Some(Decimal), None))
    case "ovrun/s" => Some(Entry("TTY", Some(Decimal), None))
    case "totsck" => Some(Entry("Network", Some(Integer), None))
    case "tcpsck" => Some(Entry("Network", Some(Integer), None))
    case "udpsck" => Some(Entry("Network", Some(Integer), None))
    case "rawsck" => Some(Entry("Network", Some(Integer), None))
    case "ip-frag" => Some(Entry("Network", Some(Integer), None))
    case "tcp-tw" => Some(Entry("Network", Some(Integer), None))
    case "rxpck/s" => Some(Entry("Network", Some(Decimal), None))
    case "txpck/s" => Some(Entry("Network", Some(Decimal), None))
    case "rxbyt/s" => Some(Entry("Network", Some(Decimal), None))
    case "txbyt/s" => Some(Entry("Network", Some(Decimal), None))
    case "rxcmp/s" => Some(Entry("Network", Some(Decimal), None))
    case "txcmp/s" => Some(Entry("Network", Some(Decimal), None))
    case "rxmcst/s" => Some(Entry("Network", Some(Decimal), None))
    case "rxerr/s" => Some(Entry("Network", Some(Decimal), None))
    case "txerr/s" => Some(Entry("Network", Some(Decimal), None))
    case "coll/s" => Some(Entry("Network", Some(Decimal), None))
    case "rxdrop/s" => Some(Entry("Network", Some(Decimal), None))
    case "txdrop/s" => Some(Entry("Network", Some(Decimal), None))
    case "txcarr/s" => Some(Entry("Network", Some(Decimal), None))
    case "rxfram/s" => Some(Entry("Network", Some(Decimal), None))
    case "rxfifo/s" => Some(Entry("Network", Some(Decimal), None))
    case "txfifo/s" => Some(Entry("Network", Some(Decimal), None))
    case "irec/s" => Some(Entry("Network", Some(Decimal), None))
    case "fwddgm/s" => Some(Entry("Network", Some(Decimal), None))
    case "idel/s" => Some(Entry("Network", Some(Decimal), None))
    case "orq/s" => Some(Entry("Network", Some(Decimal), None))
    case "asmrq/s" => Some(Entry("Network", Some(Decimal), None))
    case "asmok/s" => Some(Entry("Network", Some(Decimal), None))
    case "fragok/s" => Some(Entry("Network", Some(Decimal), None))
    case "fragcrt/s" => Some(Entry("Network", Some(Decimal), None))
    case "ihdrerr/s" => Some(Entry("Network", Some(Decimal), None))
    case "iadrerr/s" => Some(Entry("Network", Some(Decimal), None))
    case "iukwnpr/s" => Some(Entry("Network", Some(Decimal), None))
    case "idisc/s" => Some(Entry("Network", Some(Decimal), None))
    case "odisc/s" => Some(Entry("Network", Some(Decimal), None))
    case "onort/s" => Some(Entry("Network", Some(Decimal), None))
    case "asmf/s" => Some(Entry("Network", Some(Decimal), None))
    case "fragf/s" => Some(Entry("Network", Some(Decimal), None))
    case "imsg/s" => Some(Entry("Network", Some(Decimal), None))
    case "omsg/s" => Some(Entry("Network", Some(Decimal), None))
    case "iech/s" => Some(Entry("Network", Some(Decimal), None))
    case "iechr/s" => Some(Entry("Network", Some(Decimal), None))
    case "oech/s" => Some(Entry("Network", Some(Decimal), None))
    case "oechr/s" => Some(Entry("Network", Some(Decimal), None))
    case "itm/s" => Some(Entry("Network", Some(Decimal), None))
    case "itmr/s" => Some(Entry("Network", Some(Decimal), None))
    case "otm/s" => Some(Entry("Network", Some(Decimal), None))
    case "otmr/s" => Some(Entry("Network", Some(Decimal), None))
    case "iadrmk/s" => Some(Entry("Network", Some(Decimal), None))
    case "iadrmkr/s" => Some(Entry("Network", Some(Decimal), None))
    case "oadrmk/s" => Some(Entry("Network", Some(Decimal), None))
    case "oadrmkr/s" => Some(Entry("Network", Some(Decimal), None))
    case "ierr/s" => Some(Entry("Network", Some(Decimal), None))
    case "oerr/s" => Some(Entry("Network", Some(Decimal), None))
    case "idstunr/s" => Some(Entry("Network", Some(Decimal), None))
    case "odstunr/s" => Some(Entry("Network", Some(Decimal), None))
    case "itmex/s" => Some(Entry("Network", Some(Decimal), None))
    case "otmex/s" => Some(Entry("Network", Some(Decimal), None))
    case "iparmpb/s" => Some(Entry("Network", Some(Decimal), None))
    case "oparmpb/s" => Some(Entry("Network", Some(Decimal), None))
    case "isrcq/s" => Some(Entry("Network", Some(Decimal), None))
    case "osrcq/s" => Some(Entry("Network", Some(Decimal), None))
    case "iredir/s" => Some(Entry("Network", Some(Decimal), None))
    case "oredir/s" => Some(Entry("Network", Some(Decimal), None))
    case "active/s" => Some(Entry("Network", Some(Decimal), None))
    case "passive/s" => Some(Entry("Network", Some(Decimal), None))
    case "iseg/s" => Some(Entry("Network", Some(Decimal), None))
    case "oseg/s" => Some(Entry("Network", Some(Decimal), None))
    case "atmptf/s" => Some(Entry("Network", Some(Decimal), None))
    case "estres/s" => Some(Entry("Network", Some(Decimal), None))
    case "retrant/s" => Some(Entry("Network", Some(Decimal), None))
    case "isegerr/s" => Some(Entry("Network", Some(Decimal), None))
    case "orsts/s" => Some(Entry("Network", Some(Decimal), None))
    case "idgm/s" => Some(Entry("Network", Some(Decimal), None))
    case "odgm/s" => Some(Entry("Network", Some(Decimal), None))
    case "noport/s" => Some(Entry("Network", Some(Decimal), None))
    case "idgmerr/s" => Some(Entry("Network", Some(Decimal), None))
    case "tcp6sck" => Some(Entry("Network", Some(Integer), None))
    case "udp6sck" => Some(Entry("Network", Some(Integer), None))
    case "raw6sck" => Some(Entry("Network", Some(Integer), None))
    case "ip6-frag" => Some(Entry("Network", Some(Integer), None))
    case "irec6/s" => Some(Entry("Network", Some(Decimal), None))
    case "fwddgm6/s" => Some(Entry("Network", Some(Decimal), None))
    case "idel6/s" => Some(Entry("Network", Some(Decimal), None))
    case "orq6/s" => Some(Entry("Network", Some(Decimal), None))
    case "asmrq6/s" => Some(Entry("Network", Some(Decimal), None))
    case "asmok6/s" => Some(Entry("Network", Some(Decimal), None))
    case "imcpck6/s" => Some(Entry("Network", Some(Decimal), None))
    case "omcpck6/s" => Some(Entry("Network", Some(Decimal), None))
    case "fragok6/s" => Some(Entry("Network", Some(Decimal), None))
    case "fragcr6/s" => Some(Entry("Network", Some(Decimal), None))
    case "ihdrer6/s" => Some(Entry("Network", Some(Decimal), None))
    case "iadrer6/s" => Some(Entry("Network", Some(Decimal), None))
    case "iukwnp6/s" => Some(Entry("Network", Some(Decimal), None))
    case "i2big6/s" => Some(Entry("Network", Some(Decimal), None))
    case "idisc6/s" => Some(Entry("Network", Some(Decimal), None))
    case "odisc6/s" => Some(Entry("Network", Some(Decimal), None))
    case "inort6/s" => Some(Entry("Network", Some(Decimal), None))
    case "onort6/s" => Some(Entry("Network", Some(Decimal), None))
    case "asmf6/s" => Some(Entry("Network", Some(Decimal), None))
    case "fragf6/s" => Some(Entry("Network", Some(Decimal), None))
    case "itrpck6/s" => Some(Entry("Network", Some(Decimal), None))
    case "imsg6/s" => Some(Entry("Network", Some(Decimal), None))
    case "omsg6/s" => Some(Entry("Network", Some(Decimal), None))
    case "iech6/s" => Some(Entry("Network", Some(Decimal), None))
    case "iechr6/s" => Some(Entry("Network", Some(Decimal), None))
    case "oechr6/s" => Some(Entry("Network", Some(Decimal), None))
    case "igmbq6/s" => Some(Entry("Network", Some(Decimal), None))
    case "igmbr6/s" => Some(Entry("Network", Some(Decimal), None))
    case "ogmbr6/s" => Some(Entry("Network", Some(Decimal), None))
    case "igmbrd6/s" => Some(Entry("Network", Some(Decimal), None))
    case "ogmbrd6/s" => Some(Entry("Network", Some(Decimal), None))
    case "irtsol6/s" => Some(Entry("Network", Some(Decimal), None))
    case "ortsol6/s" => Some(Entry("Network", Some(Decimal), None))
    case "irtad6/s" => Some(Entry("Network", Some(Decimal), None))
    case "inbsol6/s" => Some(Entry("Network", Some(Decimal), None))
    case "onbsol6/s" => Some(Entry("Network", Some(Decimal), None))
    case "inbad6/s" => Some(Entry("Network", Some(Decimal), None))
    case "onbad6/s" => Some(Entry("Network", Some(Decimal), None))
    case "ierr6/s" => Some(Entry("Network", Some(Decimal), None))
    case "idtunr6/s" => Some(Entry("Network", Some(Decimal), None))
    case "odtunr6/s" => Some(Entry("Network", Some(Decimal), None))
    case "itmex6/s" => Some(Entry("Network", Some(Decimal), None))
    case "otmex6/s" => Some(Entry("Network", Some(Decimal), None))
    case "iprmpb6/s" => Some(Entry("Network", Some(Decimal), None))
    case "oprmpb6/s" => Some(Entry("Network", Some(Decimal), None))
    case "iredir6/s" => Some(Entry("Network", Some(Decimal), None))
    case "oredir6/s" => Some(Entry("Network", Some(Decimal), None))
    case "ipck2b6/s" => Some(Entry("Network", Some(Decimal), None))
    case "opck2b6/s" => Some(Entry("Network", Some(Decimal), None))
    case "idgm6/s" => Some(Entry("Network", Some(Decimal), None))
    case "odgm6/s" => Some(Entry("Network", Some(Decimal), None))
    case "noport6/s" => Some(Entry("Network", Some(Decimal), None))
    case "idgmer6/s" => Some(Entry("Network", Some(Decimal), None))
    case "intr/s" => Some(Entry("Interrupts", Some(Decimal), None))
    case _ => None
  }

  /** The keys of `base_graphs` in the order they are written. */
  const BaseGraphNames: seq<string> := [
    "%user", "%usr", "%system", "%sys", "%iowait", "%irq",
    "%soft", "%nice", "%gnice", "%idle", "%steal", "%guest",
    "runq-sz", "plist-sz", "ldavg-1", "ldavg-5", "ldavg-15", "blocked",
    "proc/s", "cswch/s", "kbmemfree", "kbmemused", "%memused", "kbbuffers",
    "kbcached", "kbcommit", "%commit", "kbactive", "kbinact", "kbdirty",
    "kbhugfree", "kbhugused", "%hugused", "frmpg/s", "bufpg/s", "campg/s",
    "pswpin/s", "pswpout/s", "kbswpfree", "kbswpused", "%swpused", "kbswpcad",
    "%swpcad", "nswap/s", "rtps", "wtps", "bread/s", "bwrtn/s",
    "rxkB/s", "txkB/s", "tps", "rd_sec/s", "wr_sec/s", "avgrq-sz",
    "avgqu-sz", "await", "svctm", "%util", "maxpower", "MHz",
    "FAN", "%temp", "degC", "drpm", "rpm", "pgpgin/s",
    "pgpgout/s", "fault/s", "majflt/s", "minflt/s", "pgfree/s", "pgscank/s",
    "pgscand/s", "pgsteal/s", "%vmeff", "file-nr", "inode-nr", "file-sz",
    "inode-sz", "super-sz", "%super-sz", "dquot-sz", "%dquot-sz", "dentunusd",
    "MBfsfree", "MBfsused", "%fsused", "%ufsused", "Ifree", "Iused",
    "%Iused", "rtsig-sz", "%rtsig-sz", "pty-nr", "call/s", "retrans/s",
    "read/s", "write/s", "access/s", "getatt/s", "scall/s", "badcall/s",
    "packet/s", "udp/s", "tcp/s", "hit/s", "miss/s", "sread/s",
    "swrite/s", "saccess/s", "sgetatt/s", "rcvin/s", "xmtin/s", "framerr/s",
    "prtyerr/s", "brk/s", "ovrun/s", "totsck", "tcpsck", "udpsck",
    "rawsck", "ip-frag", "tcp-tw", "rxpck/s", "txpck/s", "rxbyt/s",
    "txbyt/s", "rxcmp/s", "txcmp/s", "rxmcst/s", "rxerr/s", "txerr/s",
    "coll/s", "rxdrop/s", "txdrop/s", "txcarr/s", "rxfram/s", "rxfifo/s",
    "txfifo/s", "irec/s", "fwddgm/s", "idel/s", "orq/s", "asmrq/s",
    "asmok/s", "fragok/s", "fragcrt/s", "ihdrerr/s", "iadrerr/s", "iukwnpr/s",
    "idisc/s", "odisc/s", "onort/s", "asmf/s", "fragf/s", "imsg/s",
    "omsg/s", "iech/s", "iechr/s", "oech/s", "oechr/s", "itm/s",
    "itmr/s", "otm/s", "otmr/s", "iadrmk/s", "iadrmkr/s", "oadrmk/s",
    "oadrmkr/s", "ierr/s", "oerr/s", "idstunr/s", "odstunr/s", "itmex/s",
    "otmex/s", "iparmpb/s", "oparmpb/s", "isrcq/s", "osrcq/s", "iredir/s",
    "oredir/s", "active/s", "passive/s", "iseg/s", "oseg/s", "atmptf/s",
    "estres/s", "retrant/s", "isegerr/s", "orsts/s", "idgm/s", "odgm/s",
    "noport/s", "idgmerr/s", "tcp6sck", "udp6sck", "raw6sck", "ip6-frag",
    "irec6/s", "fwddgm6/s", "idel6/s", "orq6/s", "asmrq6/s", "asmok6/s",
    "imcpck6/s", "omcpck6/s", "fragok6/s", "fragcr6/s", "ihdrer6/s", "iadrer6/s",
    "iukwnp6/s", "i2big6/s", "idisc6/s", "odisc6/s", "inort6/s", "onort6/s",
    "asmf6/s", "fragf6/s", "itrpck6/s", "imsg6/s", "omsg6/s", "iech6/s",
    "iechr6/s", "oechr6/s", "igmbq6/s", "igmbr6/s", "ogmbr6/s", "igmbrd6/s",
    "ogmbrd6/s", "irtsol6/s", "ortsol6/s", "irtad6/s", "inbsol6/s", "onbsol6/s",
    "inbad6/s", "onbad6/s", "ierr6/s", "idtunr6/s", "odtunr6/s", "itmex6/s",
    "otmex6/s", "iprmpb6/s", "oprmpb6/s", "iredir6/s", "oredir6/s", "ipck2b6/s",
    "opck2b6/s", "idgm6/s", "odgm6/s", "noport6/s", "idgmer6/s", "intr/s"
  ]
}
