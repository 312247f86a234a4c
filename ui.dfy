/**
 * Streamlit's per-browser state as the pages use it: `st.session_state`, a
 * dictionary of arbitrary values kept across reruns, and `st.query_params`,
 * the text parameters of the page URL. Widget values and button clicks are
 * inputs of the operations that read them.
 */
module Ui {
  import opened PyValue

  class Session {
    /** `st.session_state`. */
    var state: map<string, Value>
    /** `st.query_params`. */
    var params: map<string, string>

    constructor(state0: map<string, Value>, params0: map<string, string>)
      ensures state == state0 && params == params0
    {
      state := state0;
      params := params0;
    }
  }

  /** Whether the stored filter key differs from the current one, so that the page must go back to 0. */
  predicate FilterChanged(state: map<string, Value>, hashKey: string, filterKey: string) {
    Get(state, hashKey, VNone) != VStr(filterKey)
  }

  /**
   * The "reset the page when the filters change" idiom: when the stored
   * filter key differs from `filterKey`, the page goes back to 0 and the new
   * key is stored; otherwise nothing changes.
   */
  method ResetPageOnFilterChange(s: Session, pageKey: string, hashKey: string, filterKey: string)
    modifies s
    ensures s.params == old(s.params)
    ensures s.state == AfterReset(old(s.state), pageKey, hashKey, filterKey)
  {
    if Get(s.state, hashKey, VNone) != VStr(filterKey) {
      s.state := s.state[pageKey := VInt(0)];
      s.state := s.state[hashKey := VStr(filterKey)];
    }
  }

  /** The state the reset idiom leaves. */
  function AfterReset(state: map<string, Value>, pageKey: string, hashKey: string, filterKey: string): map<string, Value> {
    if FilterChanged(state, hashKey, filterKey) then state[pageKey := VInt(0)][hashKey := VStr(filterKey)] else state
  }

  /**
   * After the reset the stored key is the current one, so a second run with
   * the same filters changes nothing; and a change of filters always lands
   * on page 0.
   */
  lemma ResetSettles(state: map<string, Value>, pageKey: string, hashKey: string, filterKey: string)
    requires pageKey != hashKey
    ensures !FilterChanged(AfterReset(state, pageKey, hashKey, filterKey), hashKey, filterKey)
    ensures AfterReset(AfterReset(state, pageKey, hashKey, filterKey), pageKey, hashKey, filterKey) ==
      AfterReset(state, pageKey, hashKey, filterKey)
    ensures FilterChanged(state, hashKey, filterKey) ==>
      AfterReset(state, pageKey, hashKey, filterKey)[pageKey] == VInt(0)
    ensures forall k :: k in state && k != pageKey && k != hashKey ==>
      k in AfterReset(state, pageKey, hashKey, filterKey) && AfterReset(state, pageKey, hashKey, filterKey)[k] == state[k]
  {
  }
}
