/** The per-SoC capacity table (`perfmon_config`): how many counters each hardware block
    can sample at once, and how many TCC channels the SoC has. */
module Capacity {
  import opened Wrappers

  /** The SoCs the table has a row for, by the names the table uses. */
  datatype Soc = Vega10 | Mi50 | Mi100 | Mi200 | Mi300

  /** The hardware blocks that own an ordinary counter bucket. TCC is the aggregate L2 bucket;
      its per-channel counters live in a separate channel table. */
  datatype Block = SQ | GRBM | TCP | TA | TD | TCC | SPI | CPC | CPF | GDS

  /** One row of the table. */
  datatype SocConfig = SocConfig(
    sq: nat, ta: nat, td: nat, tcp: nat, tcc: nat, cpc: nat, cpf: nat,
    spi: nat, grbm: nat, gds: nat, tccChannels: nat)

  /** perfmon_config[soc] */
  function Config(soc: Soc): SocConfig {
    match soc
    case Vega10 => SocConfig(8, 2, 2, 4, 4, 2, 2, 2, 2, 4, 16)
    case Mi50 => SocConfig(8, 2, 2, 4, 4, 2, 2, 2, 2, 4, 16)
    case Mi100 => SocConfig(8, 2, 2, 4, 4, 2, 2, 2, 2, 4, 32)
    case Mi200 => SocConfig(8, 2, 2, 4, 4, 2, 2, 2, 2, 4, 32)
    case Mi300 => SocConfig(8, 2, 2, 4, 4, 2, 2, 2, 2, 4, 32)
  }

  /** The table is keyed by SoC name; any other name is a lookup failure (KeyError). */
  function SocNamed(name: string): (r: Option<Soc>)
    ensures r.Some? <==> name in {"vega10", "mi50", "mi100", "mi200", "mi300"}
  {
    match name
    case "vega10" => Some(Vega10)
    case "mi50" => Some(Mi50)
    case "mi100" => Some(Mi100)
    case "mi200" => Some(Mi200)
    case "mi300" => Some(Mi300)
    case _ => None
  }

  /** perfmon_config[soc][block]: counters block b can sample in one pass. */
  function Cap(soc: Soc, b: Block): (r: nat)
    ensures r >= 1
  {
    var c := Config(soc);
    match b
    case SQ => c.sq
    case GRBM => c.grbm
    case TCP => c.tcp
    case TA => c.ta
    case TD => c.td
    case TCC => c.tcc
    case SPI => c.spi
    case CPC => c.cpc
    case CPF => c.cpf
    case GDS => c.gds
  }

  /** perfmon_config[soc]["TCC_channels"] */
  function Channels(soc: Soc): nat {
    Config(soc).tccChannels
  }

  const AllBlocks: set<Block> := {SQ, GRBM, TCP, TA, TD, TCC, SPI, CPC, CPF, GDS}

  lemma EveryBlock(b: Block)
    ensures b in AllBlocks
  {
    match b
    case SQ => case GRBM => case TCP => case TA => case TD =>
    case TCC => case SPI => case CPC => case CPF => case GDS =>
  }

  /** The bucket key of each block, as the bucket table names it. */
  function BlockName(b: Block): string {
    match b
    case SQ => "SQ"
    case GRBM => "GRBM"
    case TCP => "TCP"
    case TA => "TA"
    case TD => "TD"
    case TCC => "TCC"
    case SPI => "SPI"
    case CPC => "CPC"
    case CPF => "CPF"
    case GDS => "GDS"
  }

  /** pmc_list[name]: the block whose bucket key is name, if any. */
  function BlockNamed(name: string): (r: Option<Block>)
    ensures r.Some? ==> BlockName(r.value) == name
    ensures forall b :: BlockName(b) == name ==> r == Some(b)
  {
    match name
    case "SQ" => Some(SQ)
    case "GRBM" => Some(GRBM)
    case "TCP" => Some(TCP)
    case "TA" => Some(TA)
    case "TD" => Some(TD)
    case "TCC" => Some(TCC)
    case "SPI" => Some(SPI)
    case "CPC" => Some(CPC)
    case "CPF" => Some(CPF)
    case "GDS" => Some(GDS)
    case _ => None
  }

  /** The order in which the planner visits the ordinary (non-TCC) buckets: the insertion
      order of the bucket table with TCC left out. */
  const PlanOrder: seq<Block> := [SQ, GRBM, TCP, TA, TD, SPI, CPC, CPF, GDS]

  /** Rank of a block in a pass: its PlanOrder index; TCC and its channels come last. */
  function Rank(b: Block): (r: nat)
    ensures b != TCC ==> r < |PlanOrder| && PlanOrder[r] == b
    ensures b == TCC <==> r == |PlanOrder|
  {
    match b
    case SQ => 0
    case GRBM => 1
    case TCP => 2
    case TA => 3
    case TD => 4
    case SPI => 5
    case CPC => 6
    case CPF => 7
    case GDS => 8
    case TCC => 9
  }
}
