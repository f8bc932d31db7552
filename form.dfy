/** The form that a request carries: the ordered (name, value) field list of an
    operation folded into a dictionary, one entry per name, a later field overwriting
    an earlier one of the same name. Values are optional because the session id sent
    before any successful authentication is None. */
module Form {
  import opened Wrappers

  type Field = (string, Option<string>)

  type FormMap = map<string, Option<string>>

  /** No field after index `i` has the same name as field `i`. */
  predicate IsLast(post: seq<Field>, i: nat)
    requires i < |post|
  {
    forall j :: i < j < |post| ==> post[j].0 != post[i].0
  }

  function Names(post: seq<Field>): set<string>
  {
    set i | 0 <= i < |post| :: post[i].0
  }

  /** The dictionary obtained by storing the fields one after the other, left to right. */
  function FormOf(post: seq<Field>): (form: FormMap)
    ensures forall k :: k in form ==> exists i :: 0 <= i < |post| && post[i] == (k, form[k])
    decreases |post|
  {
    if post == [] then map[]
    else
      var last := post[|post| - 1];
      FormOf(post[..|post| - 1])[last.0 := last.1]
  }

  /** The form has exactly one entry per field name that occurs in the list. */
  lemma {:induction false} FormOfKeys(post: seq<Field>)
    ensures FormOf(post).Keys == Names(post)
    decreases |post|
  {
    if post != [] {
      var init := post[..|post| - 1];
      FormOfKeys(init);
      assert Names(post) == Names(init) + {post[|post| - 1].0} by {
        forall x | x in Names(post) ensures x in Names(init) + {post[|post| - 1].0} {
          var i :| 0 <= i < |post| && post[i].0 == x;
          if i < |post| - 1 {
            assert init[i] == post[i];
          }
        }
        forall x | x in Names(init) ensures x in Names(post) {
          var i :| 0 <= i < |init| && init[i].0 == x;
          assert post[i] == init[i];
        }
      }
    }
  }

  /** Each name is sent with the value of its last occurrence in the list. */
  lemma {:induction false} FormOfLastWins(post: seq<Field>, i: nat)
    requires i < |post| && IsLast(post, i)
    ensures post[i].0 in FormOf(post) && FormOf(post)[post[i].0] == post[i].1
    decreases |post|
  {
    if i < |post| - 1 {
      var init := post[..|post| - 1];
      assert init[i] == post[i];
      assert IsLast(init, i) by {
        forall j | i < j < |init| ensures init[j].0 != init[i].0 {
          assert init[j] == post[j];
        }
      }
      FormOfLastWins(init, i);
    }
  }

  /** Fills the dictionary in a loop over the field list, as the request executor does
      before encoding the form. */
  method BuildForm(post: seq<Field>) returns (form: FormMap)
    ensures form == FormOf(post)
    ensures form.Keys == Names(post)
    ensures forall i: nat :: i < |post| && IsLast(post, i) ==> form[post[i].0] == post[i].1
  {
    form := map[];
    for i := 0 to |post|
      invariant form == FormOf(post[..i])
    {
      assert post[..i + 1][..i] == post[..i];
      form := form[post[i].0 := post[i].1];
    }
    assert post[..|post|] == post;
    FormOfKeys(post);
    forall i: nat | i < |post| && IsLast(post, i)
      ensures form[post[i].0] == post[i].1
    {
      FormOfLastWins(post, i);
    }
  }
}
