/**
 * Action keys and permission strings (fastapi_user_auth/utils.py).
 *
 * An admin action name is normalised to one of three hierarchical keys, and a
 * policy rule (without its subject) travels as one string of `#`-joined fields,
 * padded to at least five.
 */
module Permission {
  import opened Wrappers
  import opened Strings

  /** The built-in verbs that get a key directly below `admin:page`. */
  const BuiltinVerbs: set<string> := {"list", "update", "bulk_update", "create", "bulk_create", "read", "submit"}

  const PagePrefix := "admin:page"
  const VerbPrefix := "admin:page:"
  const ActionPrefix := "admin:page:action:"

  /** The field separator of a permission string. */
  const Sep := '#'

  /** The number of fields a policy rule has after its subject. */
  const FieldCount := 5

  /**
   * `encode_admin_action`: every key lies below `admin:page`, and every key of an
   * action other than `page` itself lies below `admin:page:`, so that a grant on a
   * key covers the keys it is a prefix of.
   */
  function EncodeAdminAction(action: string): (key: string)
    ensures PagePrefix <= key
    ensures action != "page" ==> VerbPrefix <= key && |key| > |VerbPrefix|
    ensures action == "page" <==> key == PagePrefix
  {
    if action == "page" then PagePrefix
    else if action in BuiltinVerbs then VerbPrefix + action
    else ActionPrefix + action
  }

  /** The action name a key stands for, if it is the key of some action. */
  function DecodeAdminAction(key: string): Option<string>
  {
    if key == PagePrefix then Some("page")
    else if ActionPrefix <= key && key[|ActionPrefix|..] != "page" && key[|ActionPrefix|..] !in BuiltinVerbs
    then Some(key[|ActionPrefix|..])
    else if VerbPrefix <= key && key[|VerbPrefix|..] in BuiltinVerbs then Some(key[|VerbPrefix|..])
    else None
  }

  /** Decoding a key recovers the action it was made from. */
  lemma AdminActionRoundTrip(action: string)
    ensures DecodeAdminAction(EncodeAdminAction(action)) == Some(action)
  {
    var key := EncodeAdminAction(action);
    if action == "page" {
    } else if action in BuiltinVerbs {
      assert key[|VerbPrefix|..] == action;
      assert !(ActionPrefix <= key) by {
        if ActionPrefix <= key {
          assert key[|VerbPrefix|] == ActionPrefix[|VerbPrefix|] == 'a';
          BuiltinVerbInitial(action);
          assert false;
        }
      }
    } else {
      assert key[|ActionPrefix|..] == action;
      assert key != PagePrefix by { assert |key| > |PagePrefix|; }
    }
  }

  /** No built-in verb starts with the letter that starts `action:`. */
  lemma BuiltinVerbInitial(verb: string)
    requires verb in BuiltinVerbs
    ensures |verb| > 0 && verb[0] != 'a'
  {
    if verb == "list" {
    } else if verb == "update" {
    } else if verb == "bulk_update" {
    } else if verb == "create" {
    } else if verb == "bulk_create" {
    } else if verb == "read" {
    } else {
      assert verb == "submit";
    }
  }

  /** A key decodes only to the action that encodes to it. */
  lemma AdminActionDecodeSound(key: string, action: string)
    requires DecodeAdminAction(key) == Some(action)
    ensures EncodeAdminAction(action) == key
  {
    if key == PagePrefix {
    } else if ActionPrefix <= key && key[|ActionPrefix|..] != "page" && key[|ActionPrefix|..] !in BuiltinVerbs {
      assert key == ActionPrefix + key[|ActionPrefix|..];
    } else {
      assert key == VerbPrefix + key[|VerbPrefix|..];
    }
  }

  /** Distinct action names never share a key. */
  lemma AdminActionInjective(a: string, b: string)
    requires EncodeAdminAction(a) == EncodeAdminAction(b)
    ensures a == b
  {
    AdminActionRoundTrip(a);
    AdminActionRoundTrip(b);
  }

  /** Right-pads with empty fields up to five; never truncates. */
  function Pad(vs: seq<string>): (r: seq<string>)
    ensures |r| == if |vs| < FieldCount then FieldCount else |vs|
    ensures r[..|vs|] == vs
    ensures forall i :: |vs| <= i < |r| ==> r[i] == ""
  {
    if |vs| < FieldCount then vs + seq(FieldCount - |vs|, _ => "") else vs
  }

  /** `casbin_permission_encode`: the padded values joined with `#`. */
  function Encode(vs: seq<string>): (s: string)
    ensures Count(s, Sep) >= FieldCount - 1
  {
    var padded := Pad(vs);
    JoinCount(padded);
    Join(padded, Sep)
  }

  /** `casbin_permission_decode`: the pieces between `#`s, padded to at least five. */
  function Decode(s: string): (r: seq<string>)
    ensures |r| >= FieldCount && NoSeparator(r, Sep)
    ensures |r| == if Count(s, Sep) < FieldCount - 1 then FieldCount else Count(s, Sep) + 1
  {
    Pad(Split(s, Sep))
  }

  /** A joined list of `n` pieces holds at least `n - 1` separators. */
  lemma {:induction false} JoinCount(vs: seq<string>)
    requires |vs| > 0
    ensures Count(Join(vs, Sep), Sep) >= |vs| - 1
  {
    if |vs| > 1 {
      JoinCount(vs[1..]);
      CountAppend(vs[0] + [Sep], Join(vs[1..], Sep));
      CountAppend(vs[0], [Sep]);
    }
  }

  lemma {:induction false} CountAppend(a: string, b: string)
    ensures Count(a + b, Sep) == Count(a, Sep) + Count(b, Sep)
  {
    if |a| == 0 {
      assert a + b == b;
    } else {
      CountAppend(a[1..], b);
      assert (a + b)[0] == a[0];
      assert (a + b)[1..] == a[1..] + b;
    }
  }

  /**
   * Round trip: values without `#` come back from decoding their encoding,
   * padded with empty fields to five and with every value beyond the fifth kept.
   */
  lemma DecodeEncode(vs: seq<string>)
    requires NoSeparator(vs, Sep)
    ensures Decode(Encode(vs)) == Pad(vs)
  {
    var padded := Pad(vs);
    assert NoSeparator(padded, Sep) by {
      forall i | 0 <= i < |padded| ensures Sep !in padded[i] {
        if i < |vs| { assert padded[i] == padded[..|vs|][i]; }
      }
    }
    SplitJoin(padded, Sep);
  }

  /** Joining `n` extra empty pieces appends `n` separators. */
  lemma {:induction false} JoinEmpties(vs: seq<string>, n: nat)
    requires |vs| > 0
    ensures Join(vs + seq(n, _ => ""), Sep) == Join(vs, Sep) + seq(n, _ => Sep)
    decreases |vs|, n
  {
    if |vs| == 1 {
      if n > 0 {
        var tail := seq(n - 1, _ => "");
        assert vs + seq(n, _ => "") == vs + ([""] + tail);
        JoinEmpties([""], n - 1);
        assert [""] + tail == [""] + seq(n - 1, _ => "");
        assert seq(n, _ => Sep) == [Sep] + seq(n - 1, _ => Sep);
      } else {
        assert vs + seq(n, _ => "") == vs;
      }
    } else {
      JoinEmpties(vs[1..], n);
      assert (vs + seq(n, _ => ""))[1..] == vs[1..] + seq(n, _ => "");
    }
  }

  /**
   * Decoding never truncates: re-encoding a decoded string gives back the string,
   * followed by one `#` per empty field that decoding added.
   */
  lemma EncodeDecode(s: string)
    ensures Encode(Decode(s)) == s + seq(|Decode(s)| - Count(s, Sep) - 1, _ => Sep)
  {
    var pieces := Split(s, Sep);
    var n := |Decode(s)| - |pieces|;
    assert Decode(s) == pieces + seq(n, _ => "");
    assert Pad(Decode(s)) == Decode(s);
    JoinEmpties(pieces, n);
    JoinSplit(s, Sep);
  }

  /** A string with at least four separators is a fixed point of decode-then-encode. */
  lemma EncodeDecodeWellFormed(s: string)
    requires Count(s, Sep) >= FieldCount - 1
    ensures Encode(Decode(s)) == s
  {
    EncodeDecode(s);
  }
}
