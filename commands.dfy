/** The command vocabulary of the GPIO variant of the driver and its decoder. */
module Commands {

  const NumCom := 4

  /** The supported command words, in the order of their enumeration values. */
  const CommandNames: seq<string> := ["out", "in", "low", "high"]

  /** Enumeration values the decoder returns. */
  const SetOut := 0
  const SetIn := 1
  const SetLow := 2
  const SetHigh := 3
  const NA := NumCom + 1

  /** The command words are pairwise different. */
  lemma CommandNamesDistinct()
    ensures |CommandNames| == NumCom
    ensures forall i, j :: 0 <= i < j < NumCom ==> CommandNames[i] != CommandNames[j]
  {
  }

  /** Searches CommandNames from index `from` on for the first entry equal to `com`. */
  function FindCommand(com: string, from: nat): (r: nat)
    requires from <= NumCom
    ensures r == NA || from <= r < NumCom
    ensures r < NumCom ==> CommandNames[r] == com
    ensures r < NumCom ==> forall j :: from <= j < r ==> CommandNames[j] != com
    ensures r == NA <==> forall j :: from <= j < NumCom ==> CommandNames[j] != com
    decreases NumCom - from
  {
    if from == NumCom then NA
    else if CommandNames[from] == com then from
    else FindCommand(com, from + 1)
  }

  /** The index of the command word equal to `com`, or NA when there is none. */
  function WhichCommand(com: string): (r: nat)
    ensures r < NumCom || r == NA
    ensures r < NumCom ==> CommandNames[r] == com
    ensures r == NA <==> com !in CommandNames
  {
    FindCommand(com, 0)
  }

  /** Since the words are distinct, a word decodes to its own index and to no other. */
  lemma WhichCommandExact(com: string, i: nat)
    requires i < NumCom
    ensures WhichCommand(com) == i <==> CommandNames[i] == com
  {
    CommandNamesDistinct();
  }

  /** Each word decodes to its enumeration value. */
  lemma WhichCommandWords()
    ensures WhichCommand("out") == SetOut
    ensures WhichCommand("in") == SetIn
    ensures WhichCommand("low") == SetLow
    ensures WhichCommand("high") == SetHigh
    ensures WhichCommand("") == NA
  {
  }
}
