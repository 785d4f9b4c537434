/** The two processes of the shared-memory and mapped-file benchmarks as programs that update one
    array in place, interleaved by a schedule. Every step is the one GuardedMemory reasons about. */
module GuardedMemoryProgram {
  import opened Turns
  import opened Systems
  import opened GuardedMemory

  lemma SchedulesKeepInv(p: Config, s: State, schedule: seq<Side>)
    requires Reachable(Region(p), s)
    ensures Reachable(Region(p), Outcome(Handshake(p), s, schedule)) && Inv(p, Outcome(Handshake(p), s, schedule))
  {
    RegionImplementsTurns(p);
    SchedulesReach(Handshake(p), Region(p), s, schedule);
    RegionInductive(p);
    InvariantWhereverReachable(Region(p), Outcome(Handshake(p), s, schedule));
  }

  class Processes {
    const p: Config
    const memory: array<Cell>
    const sBuffer: array<Cell>
    const cBuffer: array<Cell>
    var spc: ServerPc
    var message: nat
    var cpc: ClientPc
    var remaining: nat
    ghost var sCopies: seq<seq<Cell>>
    ghost var cCopies: seq<seq<Cell>>

    constructor (p: Config, memory: array<Cell>)
      requires p.Valid() && memory.Length == p.offset + p.size && memory[0].Fresh?
      requires memory[0].letter != Wakes(Server) && memory[0].letter != Wakes(Client)
      ensures Shape() && this.p == p && this.memory == memory && Init(p, View())
      ensures fresh(sBuffer) && fresh(cBuffer)
    {
      this.p, this.memory := p, memory;
      sBuffer := new Cell[p.size](_ => Fresh('?'));
      cBuffer := new Cell[p.size](_ => Fresh('?'));
      spc, message, sCopies := SFirstWait, 0, [];
      cpc, remaining, cCopies := CStart, p.count, [];
    }

    ghost predicate Shape()
      reads this
    {
      && p.Valid() && memory.Length == p.offset + p.size && sBuffer.Length == cBuffer.Length == p.size
      && memory != sBuffer && memory != cBuffer && sBuffer != cBuffer
    }

    ghost function View(): State
      reads this, memory, sBuffer, cBuffer
    {
      State(memory[..], spc, message, sBuffer[..], sCopies, cpc, remaining, cBuffer[..], cCopies)
    }

    method ServerActs()
      requires Shape() && Inv(p, View())
      modifies `spc, `message, `sCopies, memory, sBuffer
      ensures View() == ServerStep(p, old(View()))
    {
      match spc {
        case SFirstWait =>
          if memory[0].letter == 's' { spc := if message < p.count then SFill(0) else SDone; }
        case SFill(i) =>
          memory[p.offset + i] := Stored('*', Server, message);
          spc := if i + 1 < p.size then SFill(i + 1) else SNotify;
        case SNotify =>
          memory[0] := Stored('c', Server, message);
          spc := SWait;
        case SWait =>
          if memory[0].letter == 's' { spc := SCopy(0); }
        case SCopy(i) =>
          sBuffer[i] := memory[p.offset + i];
          if i + 1 < p.size {
            spc := SCopy(i + 1);
          } else {
            sCopies := sCopies + [sBuffer[..]];
            message := message + 1;
            spc := if message < p.count then SFill(0) else SDone;
          }
        case SDone =>
      }
    }

    method ClientActs()
      requires Shape() && Inv(p, View())
      modifies `cpc, `remaining, `cCopies, memory, cBuffer
      ensures View() == ClientStep(p, old(View()))
    {
      match cpc {
        case CStart =>
          memory[0] := Fresh('s');
          cpc := if remaining > 0 then CWait else CDone;
        case CWait =>
          if memory[0].letter == 'c' { cpc := CCopy(0); }
        case CCopy(i) =>
          cBuffer[i] := memory[p.offset + i];
          if i + 1 < p.size {
            cpc := CCopy(i + 1);
          } else {
            cCopies := cCopies + [cBuffer[..]];
            cpc := CFill(0);
          }
        case CFill(i) =>
          memory[p.offset + i] := Stored('*', Client, p.count - remaining);
          cpc := if i + 1 < p.size then CFill(i + 1) else CNotify;
        case CNotify =>
          memory[0] := Stored('s', Client, p.count - remaining);
          remaining := remaining - 1;
          cpc := if remaining > 0 then CWait else CDone;
        case CDone =>
      }
    }

    /** Both programs under an arbitrary schedule: the region and the buffers are always those of the
        state machine, so all that is proved of its reachable states holds here. */
    method Run(schedule: seq<Side>)
      requires Shape() && Reachable(Region(p), View())
      modifies this, memory, sBuffer, cBuffer
      ensures View() == Outcome(Handshake(p), old(View()), schedule)
      ensures Reachable(Region(p), View())
    {
      ghost var start := View();
      var i := 0;
      while i < |schedule|
        invariant i <= |schedule| && View() == Outcome(Handshake(p), start, schedule[..i])
      {
        SchedulesKeepInv(p, start, schedule[..i]);
        OneMore(Handshake(p), start, schedule, i);
        if schedule[i] == Server { ServerActs(); } else { ClientActs(); }
        i := i + 1;
      }
      assert schedule[..i] == schedule;
      SchedulesKeepInv(p, start, schedule);
    }
  }
}
