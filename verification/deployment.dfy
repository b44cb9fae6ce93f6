/** The deployment methods the pipeline draws architectures for, and their names. */
module Deployment {

  datatype Method = OnPrem | Cloud | Hybrid | HybridTrainingLocal | FourGVpnBridge | Vimov

  /** The identifier each method is written as in project data. */
  function Name(m: Method): string {
    match m
    case OnPrem => "on-prem"
    case Cloud => "cloud"
    case Hybrid => "hybrid"
    case HybridTrainingLocal => "hybrid-training-local"
    case FourGVpnBridge => "4g-vpn-bridge"
    case Vimov => "vimov"
  }

  /** Names identify methods: no two methods share one. */
  lemma NameInjective(a: Method, b: Method)
    requires Name(a) == Name(b)
    ensures a == b
  {
    match a
    case OnPrem => assert Name(a)[0] == 'o';
    case Cloud => assert Name(a)[0] == 'c';
    case Hybrid => assert |Name(a)| == 6 && Name(a)[0] == 'h';
    case HybridTrainingLocal => assert |Name(a)| == 21;
    case FourGVpnBridge => assert Name(a)[0] == '4';
    case Vimov => assert Name(a)[0] == 'v';
  }
}
