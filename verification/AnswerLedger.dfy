/** What one question's run has gathered: a ledger that only grows, except back to a mark. */
module AnswerLedger {

  type Path = string

  datatype Window = Window(path: Path, number: nat)

  /** Tool results in order; pages surfaced, queries tried, and page windows read, in first order. */
  datatype Ledger = Ledger(evidence: seq<string>, pages: seq<Path>, searched: seq<string>, windows: seq<Window>)

  datatype Note = Result(text: string) | Surfaced(path: Path) | Tried(query: string) | Read(window: Window)

  function NoteOne(l: Ledger, note: Note): Ledger {
    match note
    case Result(text) => l.(evidence := l.evidence + [text])
    case Surfaced(path) => if path in l.pages then l else l.(pages := l.pages + [path])
    case Tried(query) => if query == "" || query in l.searched then l else l.(searched := l.searched + [query])
    case Read(window) => l.(windows := l.windows + [window])
  }

  function NoteAll(l: Ledger, notes: seq<Note>): Ledger {
    if notes == [] then l else NoteOne(NoteAll(l, notes[..|notes| - 1]), notes[|notes| - 1])
  }

  predicate Grows(a: Ledger, b: Ledger) {
    a.evidence <= b.evidence && a.pages <= b.pages && a.searched <= b.searched && a.windows <= b.windows
  }

  lemma {:induction false} NotesGrow(l: Ledger, notes: seq<Note>)
    ensures Grows(l, NoteAll(l, notes))
  {
    if notes != [] { NotesGrow(l, notes[..|notes| - 1]); }
  }

  datatype Mark = Mark(evidence: nat, pages: nat, searched: nat, windows: nat)

  function MarkOf(l: Ledger): Mark { Mark(|l.evidence|, |l.pages|, |l.searched|, |l.windows|) }

  function UpTo<T>(s: seq<T>, n: nat): seq<T> { if n <= |s| then s[..n] else s }

  function Rewound(l: Ledger, m: Mark): Ledger {
    Ledger(UpTo(l.evidence, m.evidence), UpTo(l.pages, m.pages), UpTo(l.searched, m.searched),
           UpTo(l.windows, m.windows))
  }

  /** Whatever was noted after a mark, rewinding to it restores the ledger. */
  lemma RewindUndoes(l: Ledger, notes: seq<Note>)
    ensures Rewound(NoteAll(l, notes), MarkOf(l)) == l
  {
    NotesGrow(l, notes);
  }

  class SynthesisContext {
    var evidence: seq<string>
    var readPaths: set<Path>
    var order: seq<Path>
    var searched: seq<string>
    var windows: seq<Window>

    /** The membership set and the ordered list of pages say the same. */
    ghost predicate Valid()
      reads this
    {
      (forall p :: p in readPaths <==> p in order) && (forall i, j :: 0 <= i < j < |order| ==> order[i] != order[j])
    }

    function View(): Ledger
      reads this
    {
      Ledger(evidence, order, searched, windows)
    }

    constructor ()
      ensures Valid() && View() == Ledger([], [], [], [])
    {
      evidence, readPaths, order, searched, windows := [], {}, [], [], [];
    }

    method Record(text: string)
      requires Valid()
      modifies this`evidence
      ensures Valid() && View() == NoteOne(old(View()), Result(text))
    {
      evidence := evidence + [text];
    }

    method NotePage(path: Path)
      requires Valid()
      modifies this`order, this`readPaths
      ensures Valid() && View() == NoteOne(old(View()), Surfaced(path))
    {
      if path !in readPaths {
        order := order + [path];
      }
      readPaths := readPaths + {path};
    }

    method NoteQuery(query: string)
      requires Valid()
      modifies this`searched
      ensures Valid() && View() == NoteOne(old(View()), Tried(query))
    {
      if query != "" && query !in searched {
        searched := searched + [query];
      }
    }

    method NoteWindow(window: Window)
      requires Valid()
      modifies this`windows
      ensures Valid() && View() == NoteOne(old(View()), Read(window))
    {
      windows := windows + [window];
    }

    /** Everything a run's tools noted, in order. */
    method NoteEach(notes: seq<Note>)
      requires Valid()
      modifies this
      ensures Valid() && View() == NoteAll(old(View()), notes)
    {
      var i := 0;
      while i < |notes|
        invariant i <= |notes| && Valid() && View() == NoteAll(old(View()), notes[..i])
        decreases |notes| - i
      {
        assert notes[..i + 1][..i] == notes[..i];
        match notes[i] {
          case Result(text) => Record(text);
          case Surfaced(path) => NotePage(path);
          case Tried(query) => NoteQuery(query);
          case Read(window) => NoteWindow(window);
        }
        i := i + 1;
      }
      assert notes[..i] == notes;
    }

    method TakeMark() returns (m: Mark)
      ensures m == MarkOf(View())
    {
      m := Mark(|evidence|, |order|, |searched|, |windows|);
    }

    /** Drops everything noted after a mark; a page dropped from the order leaves the membership set too. */
    method Rewind(m: Mark)
      requires Valid()
      modifies this
      ensures Valid() && View() == Rewound(old(View()), m)
    {
      evidence, windows := UpTo(evidence, m.evidence), UpTo(windows, m.windows);
      var i := if m.pages <= |order| then m.pages else |order|;
      ghost var from := i;
      while i < |order|
        invariant from <= i <= |order|
        invariant order == old(order) && searched == old(searched)
        invariant evidence == UpTo(old(evidence), m.evidence) && windows == UpTo(old(windows), m.windows)
        invariant forall p :: p in readPaths <==> p in order[..from] || p in order[i..]
      {
        assert order[i..] == [order[i]] + order[i + 1..];
        assert order[i] !in order[i + 1..] && order[i] !in order[..from];
        readPaths := readPaths - {order[i]};
        i := i + 1;
      }
      order := UpTo(order, m.pages);
      searched := UpTo(searched, m.searched);
    }
  }
}
