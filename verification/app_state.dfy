/** The application-state context: whether onboarding is complete, the
    preferred content kind, and the therapeutic interests, each mirrored to a
    browser-storage key. */
module AppState {
  import opened Common
  import opened Seqs

  /** The value the context starts from and falls back to. The stored value
      is cast unchecked, so any non-empty string is accepted on load. */
  const DefaultPreference: string := "both"

  /** `hasCompletedOnboarding` is None (undefined) until the stored values
      have been read. */
  datatype State = State(hasCompletedOnboarding: Option<bool>, contentPreference: string,
                         therapeuticInterests: seq<string>)

  /** The three storage keys: the onboarding flag and the preference as raw
      strings, the interests as a JSON blob. */
  datatype Store = Store(onboarding: Option<string>, preference: Option<string>,
                         interests: StoredValue<seq<string>>)

  /** The in-memory state together with what storage currently holds. */
  datatype Session = Session(state: State, store: Store)

  /** JavaScript `String(b)`. */
  function BoolText(b: bool): string {
    if b then "true" else "false"
  }

  /** The provider before its mount effect runs. */
  function Initial(): (st: State)
    ensures st.hasCompletedOnboarding.None?
    ensures st.contentPreference == DefaultPreference && st.therapeuticInterests == []
  {
    State(None, DefaultPreference, [])
  }

  /** The mount effect applied to the initial state. `readable` is false when
      reading storage throws. A stored interests text that does not parse also
      throws, after the flag and the preference were set, so the handler then
      forces the flag to false and leaves the interests empty. */
  function Load(store: Store, readable: bool): (st: State)
    ensures st.hasCompletedOnboarding.Some?
    ensures readable && !store.interests.Malformed? ==>
              (st.hasCompletedOnboarding == Some(true) <==> store.onboarding == Some("true"))
    ensures !readable || store.interests.Malformed? ==> st.hasCompletedOnboarding == Some(false)
    ensures readable && store.preference.Some? && store.preference.value != "" ==>
              st.contentPreference == store.preference.value
    ensures !(readable && store.preference.Some? && store.preference.value != "") ==>
              st.contentPreference == DefaultPreference
    ensures readable && store.interests.Present? ==> st.therapeuticInterests == store.interests.value
    ensures !(readable && store.interests.Present?) ==> st.therapeuticInterests == []
  {
    var init := Initial();
    if !readable then init.(hasCompletedOnboarding := Some(false))
    else
      var flag := store.onboarding == Some("true");
      var pref := if store.preference.Some? && store.preference.value != "" then store.preference.value
                  else init.contentPreference;
      match store.interests
      case Absent => State(Some(flag), pref, init.therapeuticInterests)
      case Present(v) => State(Some(flag), pref, v)
      case Malformed => State(Some(false), pref, init.therapeuticInterests)
  }

  /** Writes the flag; the in-memory value changes only if the write succeeded. */
  function SetHasCompletedOnboarding(s: Session, value: bool, writeOk: bool): (r: Session)
    ensures writeOk ==> r.state.hasCompletedOnboarding == Some(value)
    ensures writeOk ==> r.store.onboarding == Some(BoolText(value))
    ensures !writeOk ==> r == s
    ensures r.state.contentPreference == s.state.contentPreference
    ensures r.state.therapeuticInterests == s.state.therapeuticInterests
    ensures r.store.preference == s.store.preference && r.store.interests == s.store.interests
  {
    if writeOk then
      Session(s.state.(hasCompletedOnboarding := Some(value)), s.store.(onboarding := Some(BoolText(value))))
    else s
  }

  /** Writes the preference; the in-memory value changes only if the write succeeded. */
  function SetContentPreference(s: Session, value: string, writeOk: bool): (r: Session)
    ensures writeOk ==> r.state.contentPreference == value && r.store.preference == Some(value)
    ensures !writeOk ==> r == s
    ensures r.state.hasCompletedOnboarding == s.state.hasCompletedOnboarding
    ensures r.state.therapeuticInterests == s.state.therapeuticInterests
    ensures r.store.onboarding == s.store.onboarding && r.store.interests == s.store.interests
  {
    if writeOk then
      Session(s.state.(contentPreference := value), s.store.(preference := Some(value)))
    else s
  }

  /** Writes the whole interest list; memory changes only if the write succeeded. */
  function SetTherapeuticInterests(s: Session, interests: seq<string>, writeOk: bool): (r: Session)
    ensures writeOk ==> r.state.therapeuticInterests == interests && r.store.interests == Present(interests)
    ensures !writeOk ==> r == s
    ensures r.state.hasCompletedOnboarding == s.state.hasCompletedOnboarding
    ensures r.state.contentPreference == s.state.contentPreference
    ensures r.store.onboarding == s.store.onboarding && r.store.preference == s.store.preference
  {
    if writeOk then
      Session(s.state.(therapeuticInterests := interests), s.store.(interests := Present(interests)))
    else s
  }

  /** Removes every copy of a present interest, or appends an absent one. */
  function Toggle(interests: seq<string>, interest: string): (r: seq<string>)
    ensures interest in r <==> interest !in interests
    ensures forall x :: x != interest ==> (x in r <==> x in interests)
  {
    if interest in interests then RemoveAll(interests, interest) else interests + [interest]
  }

  /** The shape of a toggle: an absent interest is appended at the end, a
      present one disappears everywhere and the rest keep their order. */
  lemma ToggleSpec(interests: seq<string>, interest: string)
    ensures interest !in interests ==>
              |Toggle(interests, interest)| == |interests| + 1 &&
              Toggle(interests, interest)[..|interests|] == interests &&
              Toggle(interests, interest)[|interests|] == interest
    ensures interest in interests ==>
              |Toggle(interests, interest)| == |interests| - Count(interests, interest) &&
              IsSubseq(Toggle(interests, interest), interests)
  {
  }

  /** Toggling an absent interest twice restores the list. */
  lemma ToggleTwiceRestores(interests: seq<string>, interest: string)
    requires interest !in interests
    ensures Toggle(Toggle(interests, interest), interest) == interests
  {
    RemoveAppended(interests, interest);
  }

  lemma {:induction false} RemoveAppended(s: seq<string>, x: string)
    requires x !in s
    ensures RemoveAll(s + [x], x) == s
    decreases |s|
  {
    if s == [] {
      assert RemoveAll([x], x) == RemoveAll([x][1..], x);
    } else {
      assert (s + [x])[1..] == s[1..] + [x];
      RemoveAppended(s[1..], x);
      assert s == [s[0]] + s[1..];
    }
  }

  /** The checkbox handler: the state always takes the toggled list; storage
      follows only when the write succeeds. */
  function ToggleTherapeuticInterest(s: Session, interest: string, writeOk: bool): (r: Session)
    ensures interest in r.state.therapeuticInterests <==> interest !in s.state.therapeuticInterests
    ensures forall x :: x != interest ==>
              (x in r.state.therapeuticInterests <==> x in s.state.therapeuticInterests)
    ensures r.state.therapeuticInterests == Toggle(s.state.therapeuticInterests, interest)
    ensures writeOk ==> r.store.interests == Present(r.state.therapeuticInterests)
    ensures !writeOk ==> r.store == s.store
    ensures r.store.onboarding == s.store.onboarding && r.store.preference == s.store.preference
    ensures r.state.hasCompletedOnboarding == s.state.hasCompletedOnboarding
    ensures r.state.contentPreference == s.state.contentPreference
  {
    var next := Toggle(s.state.therapeuticInterests, interest);
    Session(s.state.(therapeuticInterests := next),
            if writeOk then s.store.(interests := Present(next)) else s.store)
  }

  /** A written flag is read back at the next mount, unless the stored
      interests text is corrupt, in which case the flag loads as false. */
  lemma OnboardingRoundTrip(s: Session, value: bool)
    ensures s.store.interests.Malformed? ==>
              Load(SetHasCompletedOnboarding(s, value, true).store, true).hasCompletedOnboarding == Some(false)
    ensures !s.store.interests.Malformed? ==>
              Load(SetHasCompletedOnboarding(s, value, true).store, true).hasCompletedOnboarding == Some(value)
  {
  }

  /** A written preference is read back, except the empty string, which reads
      as the default. */
  lemma PreferenceRoundTrip(s: Session, value: string)
    ensures Load(SetContentPreference(s, value, true).store, true).contentPreference
            == (if value == "" then DefaultPreference else value)
  {
  }

  /** The next mount after a toggle: a written list is read back, and since
      it replaces any corrupt blob the flag loads as stored again; after a
      failed write the mount reads what was stored before, so the toggle is
      lost although memory showed it. */
  lemma InterestsRoundTrip(s: Session, interest: string, writeOk: bool)
    ensures writeOk ==>
              Load(ToggleTherapeuticInterest(s, interest, writeOk).store, true).therapeuticInterests
              == Toggle(s.state.therapeuticInterests, interest) &&
              Load(ToggleTherapeuticInterest(s, interest, writeOk).store, true).hasCompletedOnboarding
              == Some(s.store.onboarding == Some("true"))
    ensures !writeOk ==>
              Load(ToggleTherapeuticInterest(s, interest, writeOk).store, true) == Load(s.store, true)
  {
  }
}
