/**
 * The challenge catalog of lib/challenge-data.ts and `generateRandomChallenge`.
 * Each catalog string has the form "Title → Description"; here every entry is
 * kept as its (title, description) pair and the string is built with `Entry`.
 * `Math.random()` is replaced by caller-supplied numbers in [0, 1).
 */
module ChallengeData {
  import opened Separator

  /** A challenge: one entry from each of the three catalog lists. */
  datatype Challenge = Challenge(constraint: string, budget: string, domain: string)

  /** Printable ASCII: every title and description of the catalog is written in it. */
  type TextChar = c: char | ' ' <= c <= '~'
  type Text = seq<TextChar>

  /** A catalog entry before it is joined: (title, description). */
  type Part = (Text, Text)

  /** The text between the title and the description of a catalog entry. */
  const Arrow: string := " → "

  /** The character of `Arrow` that occurs in it only once. */
  const ArrowMark: char := '→'

  /** The catalog string "Title → Description" of a part. */
  function Entry(p: Part): string {
    p.0 + Arrow + p.1
  }

  /** The catalog strings of a list of parts, in order. */
  function Entries(parts: seq<Part>): (es: seq<string>)
    ensures |es| == |parts|
    ensures forall k :: 0 <= k < |parts| ==> es[k] == Entry(parts[k])
  {
    if parts == [] then [] else [Entry(parts[0])] + Entries(parts[1..])
  }

  const NoImportRookie: Part := ("No-Import Rookie", "Only built-in functions, no libraries")
  const FewVariableHero: Part := ("Few-Variable Hero", "Maximum 8 variables in entire program")
  const SingleFunctionMaster: Part := ("Single-Function Master", "Only 1 function allowed (plus main)")
  const ErrorProofCoder: Part := ("Error-Proof Coder", "Program never crashes, handles all inputs")
  const OneLoopWarrior: Part := ("One-Loop Warrior", "Maximum 1 loop in entire program")
  const ShortNameNinja: Part := ("Short-Name Ninja", "Variable names maximum 3 characters")
  const FastResponseBuilder: Part := ("FastResponse Builder", "Must load/respond in under 2 seconds")
  const SimpleStateCreator: Part := ("Simple-State Creator", "Program has 2-3 different modes/states")

  const TinyScripter: Part := ("Tiny Scripter", "50 lines maximum")
  const MiniBuilder: Part := ("Mini Builder", "100 lines maximum")
  const CompactCoder: Part := ("Compact Coder", "150 lines maximum")
  const StandardMaker: Part := ("Standard Maker", "200 lines maximum")
  const DetailedCreator: Part := ("Detailed Creator", "300 lines maximum")
  const FeatureRichDev: Part := ("Feature-Rich Dev", "400 lines maximum")
  const ProfessionalBuilder: Part := ("Professional Builder", "500 lines maximum")
  const EnterpriseCreator: Part := ("Enterprise Creator", "650 lines maximum")

  const SimpleGames: Part := ("Simple Games", "Tic-tac-toe, hangman, word games")
  const BasicTools: Part := ("Basic Tools", "Calculators, converters, generators")
  const TextProcessing: Part := ("Text Processing", "Editors, analyzers, formatters")
  const NumberCrunching: Part := ("Number Crunching", "Math tools, statistics, algorithms")
  const FileManagement: Part := ("File Management", "Organizers, readers, processors")
  const QuizSystems: Part := ("Quiz Systems", "Trivia, flashcards, learning tools")
  const VisualCreation: Part := ("Visual Creation", "ASCII art, charts, graphics")
  const MiniDatabases: Part := ("Mini Databases", "Records, inventory, contacts")
  const WebScrapers: Part := ("Web Scrapers", "Data collectors, parsers")
  const SystemUtilities: Part := ("System Utilities", "Monitors, cleaners, automation")

  const CoreConstraintParts: seq<Part> := [
    NoImportRookie, FewVariableHero, SingleFunctionMaster, ErrorProofCoder,
    OneLoopWarrior, ShortNameNinja, FastResponseBuilder, SimpleStateCreator
  ]
  const LineBudgetParts: seq<Part> := [
    TinyScripter, MiniBuilder, CompactCoder, StandardMaker,
    DetailedCreator, FeatureRichDev, ProfessionalBuilder, EnterpriseCreator
  ]
  const ProjectDomainParts: seq<Part> := [
    SimpleGames, BasicTools, TextProcessing, NumberCrunching, FileManagement,
    QuizSystems, VisualCreation, MiniDatabases, WebScrapers, SystemUtilities
  ]

  /** `challengeData.coreConstraints`, `.lineBudgets` and `.projectDomains`. */
  const CoreConstraints: seq<string> := Entries(CoreConstraintParts)
  const LineBudgets: seq<string> := Entries(LineBudgetParts)
  const ProjectDomains: seq<string> := Entries(ProjectDomainParts)

  /** 8 constraints, 8 budgets and 10 domains: 640 index triples. */
  lemma CatalogSizes()
    ensures |CoreConstraints| == 8 && |LineBudgets| == 8 && |ProjectDomains| == 10
    ensures |CoreConstraints| * |LineBudgets| * |ProjectDomains| == 640
  {
  }

  /** Every catalog string contains " → " exactly once, right after its title. */
  lemma EntryHasOneArrow(p: Part)
    ensures OccursOnlyAt(Entry(p), Arrow, |p.0|)
  {
    assert Arrow[1] == ArrowMark && Marker(Arrow, 1);
    assert ArrowMark !in p.0 && ArrowMark !in p.1;
    OnlyOccurrenceBetween(p.0, Arrow, p.1, 1);
  }

  /** The catalog strings are the entries of some part, so each of them contains " → " exactly once. */
  lemma CatalogEntryHasOneArrow(e: string)
    requires e in CoreConstraints || e in LineBudgets || e in ProjectDomains
    ensures exists p: Part :: e == Entry(p) && OccursOnlyAt(e, Arrow, |p.0|)
  {
    var parts := if e in CoreConstraints then CoreConstraintParts
                 else if e in LineBudgets then LineBudgetParts else ProjectDomainParts;
    var k :| 0 <= k < |parts| && Entries(parts)[k] == e;
    EntryHasOneArrow(parts[k]);
  }

  /** `Math.floor(r * len)`: the index a random `r` in [0, 1) picks from a list of length `len`. */
  function DrawIndex(r: real, len: nat): (k: nat)
    requires 0.0 <= r < 1.0 && len > 0
    ensures k < len
  {
    var x := r * len as real;
    assert x < len as real by {
      assert (1.0 - r) * len as real > 0.0;
    }
    x.Floor
  }

  /** `generateRandomChallenge`, with `r1`, `r2`, `r3` the three values `Math.random()` returns. */
  function GenerateRandomChallenge(r1: real, r2: real, r3: real): (c: Challenge)
    requires 0.0 <= r1 < 1.0 && 0.0 <= r2 < 1.0 && 0.0 <= r3 < 1.0
    ensures c.constraint in CoreConstraints
    ensures c.budget in LineBudgets
    ensures c.domain in ProjectDomains
  {
    Challenge(
      CoreConstraints[DrawIndex(r1, |CoreConstraints|)],
      LineBudgets[DrawIndex(r2, |LineBudgets|)],
      ProjectDomains[DrawIndex(r3, |ProjectDomains|)])
  }

  /** Each index is reached: the random value k / len picks index k. */
  lemma DrawIndexReaches(k: nat, len: nat)
    requires k < len
    ensures 0.0 <= k as real / len as real < 1.0
    ensures DrawIndex(k as real / len as real, len) == k
  {
    assert k as real / len as real * len as real == k as real;
  }

  /** Every one of the combinations of catalog entries can be drawn. */
  lemma EveryCombinationDrawable(i: nat, j: nat, k: nat)
    requires i < |CoreConstraints| && j < |LineBudgets| && k < |ProjectDomains|
    ensures exists r1: real, r2: real, r3: real ::
      0.0 <= r1 < 1.0 && 0.0 <= r2 < 1.0 && 0.0 <= r3 < 1.0 &&
      GenerateRandomChallenge(r1, r2, r3) == Challenge(CoreConstraints[i], LineBudgets[j], ProjectDomains[k])
  {
    CatalogSizes();
    DrawIndexReaches(i, 8);
    DrawIndexReaches(j, 8);
    DrawIndexReaches(k, 10);
    var r1, r2, r3 := i as real / 8 as real, j as real / 8 as real, k as real / 10 as real;
    var c := GenerateRandomChallenge(r1, r2, r3);
    assert c.constraint == CoreConstraints[i];
    assert c.budget == LineBudgets[j];
    assert c.domain == ProjectDomains[k];
  }

  /** Each field depends only on its own random value: changing the others leaves it unchanged. */
  lemma FieldsDrawnIndependently(r1: real, r2: real, r3: real, s1: real, s2: real, s3: real)
    requires 0.0 <= r1 < 1.0 && 0.0 <= r2 < 1.0 && 0.0 <= r3 < 1.0
    requires 0.0 <= s1 < 1.0 && 0.0 <= s2 < 1.0 && 0.0 <= s3 < 1.0
    ensures GenerateRandomChallenge(r1, s2, s3).constraint == GenerateRandomChallenge(r1, r2, r3).constraint
    ensures GenerateRandomChallenge(s1, r2, s3).budget == GenerateRandomChallenge(r1, r2, r3).budget
    ensures GenerateRandomChallenge(s1, s2, r3).domain == GenerateRandomChallenge(r1, r2, r3).domain
  {
  }
}
