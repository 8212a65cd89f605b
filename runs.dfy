/** `LR_parser` run on the table of an `SLRParser`: what the table's
    construction guarantees about the loop. */
module ParserRuns {
  import opened Wrappers
  import opened Text
  import opened GrammarModel
  import opened GrammarFacts
  import opened Automaton
  import opened Transitions
  import opened FirstFollow
  import opened Cells
  import opened Table
  import opened TableFacts
  import opened SlrParser
  import opened Driver

  /** Unless "$" is also one of the grammar's own terminals, every cell of
      a state's row is one the loop handles: no shift shares the "$" cell
      with the accept. */
  lemma CellLegible(st: Setting, I: ItemSet, order: seq<Source>, row: Row, c: Symbol)
    requires StateOf(st, I, order, row) && c in row && EndMarker !in st.g.terminals
    ensures Legible(row[c])
  {
    SymbolKindsDisjoint(st.g);
    EndMarkerNotUpper();
    if c in st.g.nonterminals {
      GotoCell(st, I, order, c);
    } else {
      RowAfterKeys(st, I, InitialRow(st.g), order);
      assert c in Columns(st.g);
      assert ActionColumn(st, c);
      ActionCell(st, I, order, c);
      var acts := ColumnActs(st, I, order, c);
      if Accept in Demand(st, I, c) {
        CellAccept(st, I, order, c);
        forall k | 0 <= k < |acts| ensures !acts[k].Shift? {
          assert acts[k] in acts;
          if acts[k].Shift? {
            ShiftDemandedOnly(st, I, c, acts[k].target);
          }
        }
        RenderAccepted(acts);
      } else {
        RenderFirst(acts);
      }
    }
  }

  /** The table of a parser whose grammar does not use "$" is legible. */
  lemma ParserLegible(p: Parser, orders: seq<seq<Source>>)
    requires Valid(p, orders) && EndMarker !in p.g.terminals
    ensures LegibleTable(p.table)
  {
    forall i, a | 0 <= i < |p.table| && a in p.table[i] ensures Legible(p.table[i][a]) {
      ValidState(p, orders, i);
      CellLegible(SettingOf(p), p.C[i], orders[i], p.table[i], a);
    }
  }

  /** The `acc` cells of a parser's table are in the "$" column. */
  lemma ParserAcceptsAtEnd(p: Parser, orders: seq<seq<Source>>)
    requires Valid(p, orders)
    ensures AcceptsAtEnd(p.table)
  {
    forall s, a | 0 <= s < |p.table| && a in p.table[s] && p.table[s][a] == Text("acc") ensures a == EndMarker {
      ValidState(p, orders, s);
      AcceptOnlyAtEnd(SettingOf(p), p.C[s], orders[s], p.table[s], a);
    }
  }

  /** `LR_parser(w)` on a parser's table accepts only once every token of
      `w` has been shifted, when `w` does not itself hold "$". */
  lemma AcceptConsumesInput(p: Parser, orders: seq<seq<Source>>, w: string, fuel: nat)
    requires Valid(p, orders) && EndMarker !in Words(w)
    ensures var r := Parse(p.table, p.G, w, fuel);
      r.Halted? && r.last.results.action != [] && Last(r.last.results.action) == AcceptMessage ==>
        r.last.pointer == |Words(w)|
  {
    ParserAcceptsAtEnd(p, orders);
    ParseAcceptsAtEnd(p.table, p.G, w, fuel);
  }
}
